/** Loading agent roles: a fold over configuration layers, lowest first, and the rule it amounts to. */
module AgentRoles {
  import opened Prelude

  datatype Role = Role(description: Option<string>, configFile: Option<string>, nicknames: Option<seq<string>>)

  /** A role declared in a layer's configuration, after its file has been read, or a malformed one. */
  datatype Declared = BadDeclaration | Declared(name: string, role: Role)

  /** A role file found in a layer's folder; `parsed` is `None` when it cannot be read. */
  datatype RoleFile = RoleFile(path: string, parsed: Option<(string, Option<string>, Option<seq<string>>)>)

  datatype Discovery = NoFolder | Unreadable | Files(files: seq<RoleFile>)

  datatype Layer = Layer(declared: seq<Declared>, discovery: Discovery)

  type Roles = map<string, Role>

  // ---------- one layer ----------

  /** The first declaration of a name wins within a layer. */
  function DeclaredRoles(ds: seq<Declared>): Roles {
    if ds == [] then map[]
    else
      var before, last := DeclaredRoles(ds[..|ds| - 1]), ds[|ds| - 1];
      if last.BadDeclaration? || last.name in before then before else before[last.name := last.role]
  }

  /** The files of all readable declarations, shadowed ones included. */
  function DeclaredFiles(ds: seq<Declared>): set<string> {
    set i | 0 <= i < |ds| && ds[i].Declared? && ds[i].role.configFile.Some? :: ds[i].role.configFile.value
  }

  /** The first file of a name wins among the files found. */
  function DiscoveredRoles(files: seq<RoleFile>, declared: set<string>): Roles {
    if files == [] then map[]
    else
      var before, last := DiscoveredRoles(files[..|files| - 1], declared), files[|files| - 1];
      if last.path in declared || last.parsed.None? || last.parsed.value.0 in before then before
      else before[last.parsed.value.0 := Role(last.parsed.value.1, Some(last.path), last.parsed.value.2)]
  }

  /** All roles of a layer: declarations first, then files under names not declared. */
  function LayerRoles(l: Layer): Roles
    requires !l.discovery.Unreadable?
  {
    var declared := DeclaredRoles(l.declared);
    if l.discovery.NoFolder? then declared
    else DiscoveredRoles(l.discovery.files, DeclaredFiles(l.declared)) + declared
  }

  // ---------- the fold ----------

  function Or<T>(a: Option<T>, b: Option<T>): Option<T> { if a.Some? then a else b }

  function Filled(role: Role, fallback: Role): Role {
    Role(Or(role.description, fallback.description), Or(role.configFile, fallback.configFile), Or(role.nicknames, fallback.nicknames))
  }

  function Merged(roles: Roles, name: string, role: Role): Role {
    if name in roles then Filled(role, roles[name]) else role
  }

  /** One layer's roles merged over those below; a role left without a description is dropped. */
  function MergeLayer(roles: Roles, layer: Roles): Roles {
    roles + map name | name in layer && Merged(roles, name, layer[name]).description.Some? :: Merged(roles, name, layer[name])
  }

  function Load(layers: seq<Roles>): Roles {
    if layers == [] then map[] else MergeLayer(Load(layers[..|layers| - 1]), layers[|layers| - 1])
  }

  // ---------- the rule ----------

  predicate Describes(layer: Roles, name: string) { name in layer && layer[name].description.Some? }

  /** The lowest layer that supplies a role's description, or the number of layers if none does. */
  function First(layers: seq<Roles>, name: string): (k: nat)
    ensures k <= |layers|
    ensures k < |layers| ==> Describes(layers[k], name)
    ensures forall i :: 0 <= i < k ==> !Describes(layers[i], name)
  {
    if layers == [] then 0
    else
      var k := First(layers[..|layers| - 1], name);
      if k < |layers| - 1 then k else if Describes(layers[|layers| - 1], name) then |layers| - 1 else |layers|
  }

  /** The value of a field in the highest layer, from layer `lo` up, that defines it for a role. */
  function Highest<T>(layers: seq<Roles>, lo: nat, name: string, field: Role -> Option<T>): (v: Option<T>)
    ensures v.Some? <==> exists i :: lo <= i < |layers| && name in layers[i] && field(layers[i][name]).Some?
    ensures v.Some? ==> exists i :: lo <= i < |layers| && name in layers[i] && field(layers[i][name]) == v
                                    && forall j :: i < j < |layers| && name in layers[j] ==> field(layers[j][name]).None?
  {
    if |layers| <= lo then None
    else
      var n := |layers| - 1;
      if name in layers[n] && field(layers[n][name]).Some? then field(layers[n][name])
      else Highest(layers[..n], lo, name, field)
  }

  function Description(r: Role): Option<string> { r.description }

  function ConfigFile(r: Role): Option<string> { r.configFile }

  function Nicknames(r: Role): Option<seq<string>> { r.nicknames }

  /** The role a name has by the rule, when some layer describes it. */
  function ByRule(layers: seq<Roles>, name: string): Role {
    var lo := First(layers, name);
    Role(Highest(layers, lo, name, Description), Highest(layers, lo, name, ConfigFile), Highest(layers, lo, name, Nicknames))
  }

  lemma HighestStep<T>(layers: seq<Roles>, lo: nat, name: string, field: Role -> Option<T>)
    requires lo < |layers|
    ensures var n := |layers| - 1;
            Highest(layers, lo, name, field) ==
              if name in layers[n] then Or(field(layers[n][name]), Highest(layers[..n], lo, name, field))
              else Highest(layers[..n], lo, name, field)
  {
  }

  /**
   * The layer-by-layer merge equals the rule: a role is present exactly when some layer supplies its
   * description, and each field is the value from the highest layer that defines it among the layers
   * at or above the first that supplied a description.
   */
  lemma {:induction false} MergeEqualsRule(layers: seq<Roles>, name: string)
    ensures name in Load(layers) <==> First(layers, name) < |layers|
    ensures name in Load(layers) ==> Load(layers)[name] == ByRule(layers, name)
  {
    if layers != [] {
      var n := |layers| - 1;
      MergeEqualsRule(layers[..n], name);
      var below, k := Load(layers[..n]), First(layers, name);
      if k < n {
        assert Highest(layers[..n], k, name, Description).Some? by {
          assert layers[..n][k] == layers[k];
        }
        HighestStep(layers, k, name, Description);
        HighestStep(layers, k, name, ConfigFile);
        HighestStep(layers, k, name, Nicknames);
      } else if k == n {
        HighestStep(layers, n, name, Description);
        HighestStep(layers, n, name, ConfigFile);
        HighestStep(layers, n, name, Nicknames);
      }
    }
  }

  // ---------- within a layer, by rule ----------

  /** Whether entry `i` is the first readable declaration of a name. */
  ghost predicate FirstDeclared(ds: seq<Declared>, i: int, name: string) {
    && 0 <= i < |ds| && ds[i].Declared? && ds[i].name == name
    && forall j :: 0 <= j < i && ds[j].Declared? ==> ds[j].name != name
  }

  lemma {:induction false} FirstDeclarationWins(ds: seq<Declared>, name: string)
    ensures name in DeclaredRoles(ds) <==> exists i :: 0 <= i < |ds| && ds[i].Declared? && ds[i].name == name
    ensures name in DeclaredRoles(ds) ==> exists i :: FirstDeclared(ds, i, name) && DeclaredRoles(ds)[name] == ds[i].role
  {
    if ds != [] {
      var n := |ds| - 1;
      FirstDeclarationWins(ds[..n], name);
      if name in DeclaredRoles(ds[..n]) {
        var i :| FirstDeclared(ds[..n], i, name) && DeclaredRoles(ds[..n])[name] == ds[..n][i].role;
        assert FirstDeclared(ds, i, name);
      } else if ds[n].Declared? && ds[n].name == name {
        assert forall j :: 0 <= j < n && ds[j].Declared? ==> ds[..n][j].name != name;
        assert FirstDeclared(ds, n, name);
      }
    }
  }

  /** A file that can supply a role: readable and not the file of a declaration of its layer. */
  predicate Supplies(f: RoleFile, declared: set<string>, name: string) {
    f.path !in declared && f.parsed.Some? && f.parsed.value.0 == name
  }

  lemma {:induction false} FirstFileWins(files: seq<RoleFile>, declared: set<string>, name: string)
    ensures name in DiscoveredRoles(files, declared) <==> exists i :: 0 <= i < |files| && Supplies(files[i], declared, name)
    ensures name in DiscoveredRoles(files, declared) ==>
              exists i :: 0 <= i < |files| && Supplies(files[i], declared, name)
                && (forall j :: 0 <= j < i ==> !Supplies(files[j], declared, name))
                && DiscoveredRoles(files, declared)[name] == Role(files[i].parsed.value.1, Some(files[i].path), files[i].parsed.value.2)
  {
    if files != [] {
      var n := |files| - 1;
      FirstFileWins(files[..n], declared, name);
      if name in DiscoveredRoles(files[..n], declared) {
        var i :| 0 <= i < n && Supplies(files[..n][i], declared, name)
                 && (forall j :: 0 <= j < i ==> !Supplies(files[..n][j], declared, name))
                 && DiscoveredRoles(files[..n], declared)[name]
                    == Role(files[..n][i].parsed.value.1, Some(files[..n][i].path), files[..n][i].parsed.value.2);
        assert Supplies(files[i], declared, name);
        forall j | 0 <= j < i ensures !Supplies(files[j], declared, name) { assert files[..n][j] == files[j]; }
      } else {
        forall j | 0 <= j < n ensures !Supplies(files[j], declared, name) { assert files[..n][j] == files[j]; }
      }
    }
  }

  /** Some readable declaration of the layer uses the file. */
  ghost predicate UsesFile(ds: seq<Declared>, path: string) {
    exists i :: 0 <= i < |ds| && ds[i].Declared? && ds[i].role.configFile == Some(path)
  }

  /** Whether file `i` is the first that can supply a name and that no declaration uses. */
  ghost predicate FirstFile(l: Layer, i: int, name: string) {
    && l.discovery.Files? && 0 <= i < |l.discovery.files|
    && var files := l.discovery.files;
       && files[i].parsed.Some? && files[i].parsed.value.0 == name && !UsesFile(l.declared, files[i].path)
       && forall j :: 0 <= j < i && files[j].parsed.Some? && files[j].parsed.value.0 == name ==> UsesFile(l.declared, files[j].path)
  }

  lemma DeclaredFilesAre(ds: seq<Declared>, path: string)
    ensures path in DeclaredFiles(ds) <==> UsesFile(ds, path)
  {
    if UsesFile(ds, path) {
      var i :| 0 <= i < |ds| && ds[i].Declared? && ds[i].role.configFile == Some(path);
      assert ds[i].role.configFile.value == path;
    }
  }

  /**
   * Within a layer a role is the one first declared under its name; failing that, the one of the first
   * readable file of its name that no declaration of the layer uses.
   */
  lemma LayerByRule(l: Layer, name: string)
    requires !l.discovery.Unreadable?
    ensures name in LayerRoles(l) <==> (exists i :: FirstDeclared(l.declared, i, name)) || (exists i :: FirstFile(l, i, name))
    ensures forall i :: FirstDeclared(l.declared, i, name) ==> name in LayerRoles(l) && LayerRoles(l)[name] == l.declared[i].role
    ensures forall i :: FirstFile(l, i, name) && (forall k :: !FirstDeclared(l.declared, k, name)) ==>
              name in LayerRoles(l) && var f := l.discovery.files[i];
              LayerRoles(l)[name] == Role(f.parsed.value.1, Some(f.path), f.parsed.value.2)
  {
    DeclaredIff(l.declared, name);
    if l.discovery.Files? { FilesIff(l, name); }
  }

  lemma DeclaredIff(ds: seq<Declared>, name: string)
    ensures name in DeclaredRoles(ds) <==> exists i :: FirstDeclared(ds, i, name)
    ensures forall i :: FirstDeclared(ds, i, name) ==> name in DeclaredRoles(ds) && DeclaredRoles(ds)[name] == ds[i].role
  {
    FirstDeclarationWins(ds, name);
    forall i | FirstDeclared(ds, i, name) ensures name in DeclaredRoles(ds) && DeclaredRoles(ds)[name] == ds[i].role {
      var k :| FirstDeclared(ds, k, name) && DeclaredRoles(ds)[name] == ds[k].role;
      assert !(i < k) && !(k < i);
    }
  }

  lemma FilesIff(l: Layer, name: string)
    requires l.discovery.Files?
    ensures var found := DiscoveredRoles(l.discovery.files, DeclaredFiles(l.declared));
            && (name in found <==> exists i :: FirstFile(l, i, name))
            && (forall i :: FirstFile(l, i, name) ==>
                  name in found && var f := l.discovery.files[i]; found[name] == Role(f.parsed.value.1, Some(f.path), f.parsed.value.2))
  {
    var files, declared := l.discovery.files, DeclaredFiles(l.declared);
    FirstFileWins(files, declared, name);
    forall i | 0 <= i < |files| ensures Supplies(files[i], declared, name) <==>
                                        files[i].parsed.Some? && files[i].parsed.value.0 == name && !UsesFile(l.declared, files[i].path)
    {
      DeclaredFilesAre(l.declared, files[i].path);
    }
    var found := DiscoveredRoles(files, declared);
    if name in found {
      var k :| 0 <= k < |files| && Supplies(files[k], declared, name) && (forall j :: 0 <= j < k ==> !Supplies(files[j], declared, name))
               && found[name] == Role(files[k].parsed.value.1, Some(files[k].path), files[k].parsed.value.2);
      assert FirstFile(l, k, name);
      forall i | FirstFile(l, i, name) ensures i == k { assert !(i < k) && !(k < i); }
    } else {
      forall i ensures !FirstFile(l, i, name) { assert 0 <= i < |files| ==> !Supplies(files[i], declared, name); }
    }
  }

  // ---------- the loops ----------

  method CollectDeclared(ds: seq<Declared>) returns (roles: Roles, files: set<string>)
    ensures roles == DeclaredRoles(ds) && files == DeclaredFiles(ds)
  {
    roles, files := map[], {};
    for i := 0 to |ds|
      invariant roles == DeclaredRoles(ds[..i]) && files == DeclaredFiles(ds[..i])
    {
      assert ds[..i + 1][..i] == ds[..i];
      assert forall f :: f in DeclaredFiles(ds[..i + 1]) <==>
               f in DeclaredFiles(ds[..i]) || (ds[i].Declared? && ds[i].role.configFile == Some(f)) by { FilesGrow(ds, i); }
      if ds[i].BadDeclaration? { continue; }
      if ds[i].role.configFile.Some? { files := files + {ds[i].role.configFile.value}; }
      if ds[i].name in roles { continue; }
      roles := roles[ds[i].name := ds[i].role];
    }
    assert ds[..|ds|] == ds;
  }

  lemma FilesGrow(ds: seq<Declared>, i: nat)
    requires i < |ds|
    ensures forall f :: f in DeclaredFiles(ds[..i + 1]) <==>
              f in DeclaredFiles(ds[..i]) || (ds[i].Declared? && ds[i].role.configFile == Some(f))
  {
    var a, b := ds[..i], ds[..i + 1];
    assert forall j :: 0 <= j < i ==> a[j] == b[j];
    forall f ensures f in DeclaredFiles(b) <==> f in DeclaredFiles(a) || (ds[i].Declared? && ds[i].role.configFile == Some(f)) {
      if f in DeclaredFiles(a) {
        var j :| 0 <= j < |a| && a[j].Declared? && a[j].role.configFile.Some? && a[j].role.configFile.value == f;
        assert b[j] == a[j];
      }
      if ds[i].Declared? && ds[i].role.configFile == Some(f) { assert b[i] == ds[i]; }
      if f in DeclaredFiles(b) {
        var j :| 0 <= j < |b| && b[j].Declared? && b[j].role.configFile.Some? && b[j].role.configFile.value == f;
        assert j < i ==> a[j] == b[j];
      }
    }
  }

  method Discover(files: seq<RoleFile>, declared: set<string>) returns (roles: Roles)
    ensures roles == DiscoveredRoles(files, declared)
  {
    roles := map[];
    for i := 0 to |files|
      invariant roles == DiscoveredRoles(files[..i], declared)
    {
      assert files[..i + 1][..i] == files[..i];
      if files[i].path in declared || files[i].parsed.None? { continue; }
      var (name, description, nicknames) := files[i].parsed.value;
      if name in roles { continue; }
      roles := roles[name := Role(description, Some(files[i].path), nicknames)];
    }
    assert files[..|files|] == files;
  }

  /** Adds the roles found in files under the names not declared. */
  method AddFound(declared: Roles, found: Roles) returns (roles: Roles)
    ensures roles == found + declared
  {
    roles := declared;
    var names := found.Keys;
    while names != {}
      invariant names <= found.Keys
      invariant forall n :: n in roles <==> n in declared || (n in found && n !in names)
      invariant forall n :: n in roles ==> roles[n] == if n in declared then declared[n] else found[n]
      decreases |names|
    {
      assert (forall x :: x !in names) ==> names == {};
      var name :| name in names;
      names := names - {name};
      if name !in roles { roles := roles[name := found[name]]; }
    }
    assert roles == found + declared;
  }

  method CollectLayer(l: Layer) returns (r: Result<Roles, ()>)
    ensures r == if l.discovery.Unreadable? then Err(()) else Ok(LayerRoles(l))
  {
    var roles, files := CollectDeclared(l.declared);
    if l.discovery.Unreadable? { return Err(()); }
    if l.discovery.Files? {
      var found := Discover(l.discovery.files, files);
      roles := AddFound(roles, found);
    }
    r := Ok(roles);
  }

  /** The merged role of a name keeps a description. */
  predicate Kept(below: Roles, layer: Roles, name: string) {
    name in layer && Merged(below, name, layer[name]).description.Some?
  }

  method MergeLoop(below: Roles, layer: Roles) returns (roles: Roles)
    ensures roles == MergeLayer(below, layer)
  {
    roles := below;
    var names := layer.Keys;
    while names != {}
      invariant PartlyMerged(below, layer, roles, names)
      decreases |names|
    {
      assert (forall x :: x !in names) ==> names == {};
      var name :| name in names;
      MergeOne(below, layer, roles, names, name);
      names := names - {name};
      var merged := layer[name];
      if name in roles { merged := Filled(merged, roles[name]); }
      if merged.description.None? { continue; }
      roles := roles[name := merged];
    }
    AllMerged(below, layer, roles);
  }

  /** The roles of the layer are merged, except for the names still to come. */
  ghost predicate PartlyMerged(below: Roles, layer: Roles, roles: Roles, names: set<string>) {
    && names <= layer.Keys
    && (forall n :: n in roles <==> n in below || (n !in names && Kept(below, layer, n)))
    && (forall n :: n in roles ==> roles[n] == if n !in names && Kept(below, layer, n) then Merged(below, n, layer[n]) else below[n])
  }

  lemma MergeOne(below: Roles, layer: Roles, roles: Roles, names: set<string>, name: string)
    requires PartlyMerged(below, layer, roles, names) && name in names
    ensures var merged := if name in roles then Filled(layer[name], roles[name]) else layer[name];
            PartlyMerged(below, layer, if merged.description.None? then roles else roles[name := merged], names - {name})
  {
    assert name in roles <==> name in below;
  }

  lemma AllMerged(below: Roles, layer: Roles, roles: Roles)
    requires PartlyMerged(below, layer, roles, {})
    ensures roles == MergeLayer(below, layer)
  {
  }

  /** Whether a layer's folder makes loading fail. */
  predicate AllReadable(layers: seq<Layer>) { forall i :: 0 <= i < |layers| ==> !layers[i].discovery.Unreadable? }

  function RolesOf(layers: seq<Layer>): seq<Roles>
    requires AllReadable(layers)
  {
    seq(|layers|, i requires 0 <= i < |layers| => LayerRoles(layers[i]))
  }

  /** Loads the roles of a stack of layers. */
  method LoadLayers(layers: seq<Layer>) returns (r: Result<Roles, ()>)
    ensures r.Ok? <==> AllReadable(layers)
    ensures r.Ok? ==> r.value == Load(RolesOf(layers))
    ensures r.Ok? ==> forall name ::
              && (name in r.value <==> First(RolesOf(layers), name) < |layers|)
              && (name in r.value ==> r.value[name] == ByRule(RolesOf(layers), name))
  {
    var roles: Roles := map[];
    for i := 0 to |layers|
      invariant AllReadable(layers[..i]) && roles == Load(RolesOf(layers[..i]))
    {
      var layer := CollectLayer(layers[i]);
      if layer.Err? { assert layers[i].discovery.Unreadable?; return Err(()); }
      assert AllReadable(layers[..i + 1]) by {
        assert layers[..i + 1] == layers[..i] + [layers[i]];
      }
      assert RolesOf(layers[..i + 1])[..i] == RolesOf(layers[..i]);
      roles := MergeLoop(roles, layer.value);
    }
    assert layers[..|layers|] == layers;
    forall name ensures && (name in roles <==> First(RolesOf(layers), name) < |layers|)
                        && (name in roles ==> roles[name] == ByRule(RolesOf(layers), name))
    {
      MergeEqualsRule(RolesOf(layers), name);
    }
    r := Ok(roles);
  }

  // ---------- without layers ----------

  /** Every declaration is readable and described, and no name comes twice. */
  ghost predicate Unambiguous(ds: seq<Declared>) {
    && (forall i :: 0 <= i < |ds| ==> ds[i].Declared? && ds[i].role.description.Some?)
    && (forall i, k :: 0 <= i < k < |ds| ==> ds[i].name != ds[k].name)
  }

  /** Without layers the first bad declaration fails the load instead of being skipped. */
  method LoadDeclared(ds: seq<Declared>) returns (r: Result<Roles, ()>)
    ensures r.Ok? <==> Unambiguous(ds)
    ensures r.Ok? ==> forall name, role :: (name in r.value && r.value[name] == role) <==> Declared(name, role) in ds
  {
    var roles: Roles := map[];
    for n := 0 to |ds|
      invariant Unambiguous(ds[..n])
      invariant forall name, role :: (name in roles && roles[name] == role) <==> Declared(name, role) in ds[..n]
    {
      if ds[n].BadDeclaration? || ds[n].role.description.None? { return Err(()); }
      if ds[n].name in roles {
        assert Declared(ds[n].name, roles[ds[n].name]) in ds[..n];
        var i :| 0 <= i < n && ds[..n][i] == Declared(ds[n].name, roles[ds[n].name]);
        assert ds[i].name == ds[n].name;
        return Err(());
      }
      forall i | 0 <= i < n ensures ds[i].name != ds[n].name {
        assert ds[..n][i] == Declared(ds[i].name, ds[i].role);
      }
      assert ds[..n + 1] == ds[..n] + [ds[n]];
      roles := roles[ds[n].name := ds[n].role];
    }
    assert ds[..|ds|] == ds;
    r := Ok(roles);
  }

  /** What loads without layers loads the same, role by role, as the only layer of a stack. */
  lemma {:induction false} DeclaredAsLayer(ds: seq<Declared>, name: string, role: Role)
    requires Unambiguous(ds)
    ensures (name in Load([DeclaredRoles(ds)]) && Load([DeclaredRoles(ds)])[name] == role) <==> Declared(name, role) in ds
  {
    FirstDeclarationWins(ds, name);
    var layers := [DeclaredRoles(ds)];
    assert layers[..0] == [] && Load(layers) == MergeLayer(map[], layers[0]);
    if name in DeclaredRoles(ds) {
      var i :| FirstDeclared(ds, i, name) && DeclaredRoles(ds)[name] == ds[i].role;
      assert ds[i] == Declared(name, DeclaredRoles(ds)[name]);
      if Declared(name, role) in ds {
        var k :| 0 <= k < |ds| && ds[k] == Declared(name, role);
        assert !(i < k) && !(k < i);
      }
    }
  }

  /** Loads the roles of the configuration's layers, or of the configuration alone when it has none. */
  method LoadAgentRoles(config: seq<Declared>, layers: seq<Layer>) returns (r: Result<Roles, ()>)
    ensures r.Ok? <==> if layers == [] then Unambiguous(config) else AllReadable(layers)
    ensures r.Ok? && layers == [] ==>
              forall name, role :: (name in r.value && r.value[name] == role) <==> Declared(name, role) in config
    ensures r.Ok? && layers != [] ==> forall name ::
              && (name in r.value <==> First(RolesOf(layers), name) < |layers|)
              && (name in r.value ==> r.value[name] == ByRule(RolesOf(layers), name))
  {
    if layers == [] { r := LoadDeclared(config); } else { r := LoadLayers(layers); }
  }
}
