/** The hash-chained event journal: the events of all jobs of a service in one table. */
module Journal {
  import opened Prelude

  type Digest = string

  const EVENT_BOUND := 2 * 1024 * 1024
  const TOTAL_BOUND := 16 * 1024 * 1024
  const ZERO: Digest := "0000000000000000000000000000000000000000000000000000000000000000"

  datatype Event = Event(job: string, previous: Digest, sha: Digest, text: string)

  datatype Refusal = EventBound | TotalBound

  /** Bytes of a character in UTF-8. */
  function CharBytes(c: char): int {
    if c as int < 0x80 then 1 else if c as int < 0x800 then 2 else if c as int < 0x10000 then 3 else 4
  }

  function Bytes(text: string): int {
    if text == "" then 0 else Bytes(text[..|text| - 1]) + CharBytes(text[|text| - 1])
  }

  /** The events of one job, in table order. */
  function Project(table: seq<Event>, job: string): seq<Event> {
    if table == [] then []
    else
      var last := table[|table| - 1];
      Project(table[..|table| - 1], job) + if last.job == job then [last] else []
  }

  /** What `SUM(LENGTH(value))` measures: characters, not bytes. */
  function Stored(events: seq<Event>): int {
    if events == [] then 0 else Stored(events[..|events| - 1]) + |events[|events| - 1].text|
  }

  function StoredBytes(events: seq<Event>): int {
    if events == [] then 0 else StoredBytes(events[..|events| - 1]) + Bytes(events[|events| - 1].text)
  }

  /** The digest the next event of a job chains to. */
  function Tip(events: seq<Event>): Digest {
    if events == [] then ZERO else events[|events| - 1].sha
  }

  /** One journal transaction. */
  function Append(sha: string -> Digest, table: seq<Event>, job: string, text: string): Result<seq<Event>, Refusal> {
    var events := Project(table, job);
    if Bytes(text) > EVENT_BOUND then Err(EventBound)
    else if Stored(events) + Bytes(text) > TOTAL_BOUND then Err(TotalBound)
    else Ok(table + [Event(job, Tip(events), sha(Tip(events) + text), text)])
  }

  /** The event digest `status` reports. */
  function Head(table: seq<Event>, job: string): Option<Digest> {
    var events := Project(table, job);
    if events == [] then None else Some(events[|events| - 1].sha)
  }

  /** The table after a list of attempts, refused ones included. */
  function Attempts(sha: string -> Digest, tries: seq<(string, string)>): seq<Event> {
    if tries == [] then []
    else
      var table := Attempts(sha, tries[..|tries| - 1]);
      var last := tries[|tries| - 1];
      match Append(sha, table, last.0, last.1)
      case Ok(table') => table'
      case Err(_) => table
  }

  /** An attempt is refused for the size of the event, or else for the room left to its job, or else stored. */
  lemma AppendByCause(sha: string -> Digest, table: seq<Event>, job: string, text: string)
    ensures match Append(sha, table, job, text)
            case Err(EventBound) => Bytes(text) > 2 * 1024 * 1024
            case Err(TotalBound) => Bytes(text) <= 2 * 1024 * 1024 && Stored(Project(table, job)) + Bytes(text) > 16 * 1024 * 1024
            case Ok(table') =>
              && Bytes(text) <= 2 * 1024 * 1024 && Stored(Project(table, job)) + Bytes(text) <= 16 * 1024 * 1024
              && |table'| == |table| + 1 && table'[..|table|] == table
              && table'[|table|].job == job && table'[|table|].text == text
  {
  }

  // ---------- chains ----------

  /** Every event fits the bound on one event. */
  ghost predicate EventsFit(events: seq<Event>) { forall i :: 0 <= i < |events| ==> Bytes(events[i].text) <= EVENT_BOUND }

  /** Each event chains to the one before it, the first to the all-zero digest. */
  ghost predicate Chain(sha: string -> Digest, events: seq<Event>) {
    events != [] ==>
      var last, before := events[|events| - 1], events[..|events| - 1];
      Chain(sha, before) && last.previous == Tip(before) && last.sha == sha(last.previous + last.text)
  }

  lemma {:induction false} CharsWithinBytes(text: string)
    ensures |text| <= Bytes(text)
  {
    if text != "" { CharsWithinBytes(text[..|text| - 1]); }
  }

  lemma AppendProjects(table: seq<Event>, e: Event, job: string)
    ensures Project(table + [e], job) == Project(table, job) + if e.job == job then [e] else []
  {
    assert (table + [e])[..|table|] == table;
  }

  lemma ChainGrows(sha: string -> Digest, events: seq<Event>, e: Event)
    requires Chain(sha, events) && e.previous == Tip(events) && e.sha == sha(e.previous + e.text)
    ensures Chain(sha, events + [e])
    ensures Stored(events + [e]) == Stored(events) + |e.text|
  {
    assert (events + [e])[..|events|] == events;
  }

  /**
   * However the events of many jobs interleave and whichever attempts are refused, every job's
   * events form a chain from the all-zero start, within the bound on stored text.
   */
  lemma {:induction false} EveryJobChained(sha: string -> Digest, tries: seq<(string, string)>, job: string)
    ensures var events := Project(Attempts(sha, tries), job);
            Chain(sha, events) && Stored(events) <= TOTAL_BOUND && EventsFit(events)
  {
    if tries != [] {
      EveryJobChained(sha, tries[..|tries| - 1], job);
      var table := Attempts(sha, tries[..|tries| - 1]);
      var (j, text) := tries[|tries| - 1];
      if Append(sha, table, j, text).Ok? {
        var tip := Tip(Project(table, j));
        AppendProjects(table, Event(j, tip, sha(tip + text), text), job);
        if j == job {
          ChainGrows(sha, Project(table, job), Event(j, tip, sha(tip + text), text));
          CharsWithinBytes(text);
        } else {
          assert Project(table, job) + [] == Project(table, job);
        }
      }
    }
  }

  /** What an event's digest is taken of. */
  function Link(e: Event): string { e.previous + e.text }

  /** Two different links, one of each list, share a digest. */
  ghost predicate Collides(sha: string -> Digest, a: seq<Event>, b: seq<Event>) {
    exists i, k :: 0 <= i < |a| && 0 <= k < |b| && Link(a[i]) != Link(b[k]) && sha(Link(a[i])) == sha(Link(b[k]))
  }

  /** Some link hashes to the all-zero digest. */
  ghost predicate HitsZero(sha: string -> Digest, a: seq<Event>) { exists i :: 0 <= i < |a| && sha(Link(a[i])) == ZERO }

  /** The events at hand exhibit a break of the digest: a collision, or a preimage of the all-zero digest. */
  ghost predicate Broken(sha: string -> Digest, a: seq<Event>, b: seq<Event>) {
    Collides(sha, a, b) || HitsZero(sha, a) || HitsZero(sha, b)
  }

  /** Two event lists that tell the same story, whichever jobs they belong to. */
  ghost predicate SameHistory(a: seq<Event>, b: seq<Event>) {
    |a| == |b| && forall i :: 0 <= i < |a| ==> a[i].text == b[i].text && a[i].previous == b[i].previous && a[i].sha == b[i].sha
  }

  lemma LinkSplits(p: Digest, t: string, p': Digest, t': string)
    requires |p| == |p'| && p + t == p' + t'
    ensures p == p' && t == t'
  {
    assert p == (p + t)[..|p|] && p' == (p' + t')[..|p|];
    assert t == (p + t)[|p|..] && t' == (p' + t')[|p|..];
  }

  lemma TipShape(sha: string -> Digest, a: seq<Event>)
    requires (forall x :: |sha(x)| == 64) && Chain(sha, a)
    ensures |Tip(a)| == 64 && (a != [] ==> Tip(a) == sha(Link(a[|a| - 1])))
  {
  }

  lemma BrokenPrefix(sha: string -> Digest, a: seq<Event>, b: seq<Event>, m: nat, n: nat)
    requires m <= |a| && n <= |b| && Broken(sha, a[..m], b[..n])
    ensures Broken(sha, a, b)
  {
    assert forall i :: 0 <= i < m ==> a[..m][i] == a[i];
    assert forall k :: 0 <= k < n ==> b[..n][k] == b[k];
  }

  lemma HistoryGrows(a: seq<Event>, b: seq<Event>)
    requires a != [] && b != [] && SameHistory(a[..|a| - 1], b[..|b| - 1])
    requires var x, y := a[|a| - 1], b[|b| - 1]; x.text == y.text && x.previous == y.previous && x.sha == y.sha
    ensures SameHistory(a, b)
  {
    forall i | 0 <= i < |a| - 1 ensures a[i].text == b[i].text && a[i].previous == b[i].previous && a[i].sha == b[i].sha {
      assert a[..|a| - 1][i] == a[i] && b[..|b| - 1][i] == b[i];
    }
  }

  /** Two chains that end in one digest are one chain, or else their links break the digest. */
  lemma {:induction false} TipDeterminesChain(sha: string -> Digest, a: seq<Event>, b: seq<Event>)
    requires (forall x :: |sha(x)| == 64) && Chain(sha, a) && Chain(sha, b) && Tip(a) == Tip(b)
    ensures SameHistory(a, b) || Broken(sha, a, b)
  {
    TipShape(sha, a);
    TipShape(sha, b);
    var m, n := |a| - 1, |b| - 1;
    if a == [] || b == [] {
      assert a != [] ==> sha(Link(a[m])) == ZERO;
      assert b != [] ==> sha(Link(b[n])) == ZERO;
    } else if Link(a[m]) != Link(b[n]) {
      assert Collides(sha, a, b);
    } else {
      TipShape(sha, a[..m]);
      TipShape(sha, b[..n]);
      LinkSplits(a[m].previous, a[m].text, b[n].previous, b[n].text);
      TipDeterminesChain(sha, a[..m], b[..n]);
      if SameHistory(a[..m], b[..n]) { HistoryGrows(a, b); } else { BrokenPrefix(sha, a, b, m, n); }
    }
  }

  /**
   * Equal heads reported by `status`, for any two jobs of any two services, mean equal histories, the
   * same texts in the same order, unless the journalled links themselves break the digest.
   */
  lemma EqualHeadsEqualHistories(
    sha: string -> Digest, tries: seq<(string, string)>, tries': seq<(string, string)>, job: string, job': string)
    requires (forall x :: |sha(x)| == 64) && Head(Attempts(sha, tries), job) == Head(Attempts(sha, tries'), job')
    ensures var a, b := Project(Attempts(sha, tries), job), Project(Attempts(sha, tries'), job');
            SameHistory(a, b) || Broken(sha, a, b)
  {
    var a, b := Project(Attempts(sha, tries), job), Project(Attempts(sha, tries'), job');
    assert Tip(a) == Tip(b);
    EveryJobChained(sha, tries, job);
    EveryJobChained(sha, tries', job');
    TipDeterminesChain(sha, a, b);
  }

  // ---------- when the bound on characters bounds bytes ----------

  predicate Ascii(text: string) { forall i :: 0 <= i < |text| ==> text[i] as int < 0x80 }

  /** A text takes one byte per character exactly when it is ASCII. */
  lemma {:induction false} OneByteEach(text: string)
    ensures Bytes(text) == |text| <==> Ascii(text)
  {
    if text != "" {
      var n := |text| - 1;
      OneByteEach(text[..n]);
      CharsWithinBytes(text[..n]);
      assert Ascii(text) <==> Ascii(text[..n]) && text[n] as int < 0x80;
    }
  }

  /** What surrounds the free part of an event's JSON text: a short ASCII head and tail. */
  datatype Envelope = Envelope(head: string, tail: string)

  predicate Plain(v: Envelope) { Ascii(v.head) && Ascii(v.tail) && |v.head| + |v.tail| <= 1024 }

  ghost predicate Over(text: string, v: Envelope, alphabet: set<char>) {
    exists body :: text == v.head + body + v.tail && forall i :: 0 <= i < |body| ==> body[i] in alphabet
  }

  /** The attempts on one job's journal keep to an alphabet within an envelope. */
  ghost predicate KeepsTo(tries: seq<(string, string)>, job: string, v: Envelope, alphabet: set<char>) {
    forall i :: 0 <= i < |tries| && tries[i].0 == job ==> Over(tries[i].1, v, alphabet)
  }

  ghost predicate AllAscii(alphabet: set<char>) { forall c :: c in alphabet ==> c as int < 0x80 }

  /** What an accepted attempt adds to the totals of a job. */
  lemma AppendAdds(sha: string -> Digest, table: seq<Event>, j: string, text: string, job: string)
    requires Append(sha, table, j, text).Ok?
    ensures var before, after := Project(table, job), Project(Append(sha, table, j, text).value, job);
            if j == job then Stored(after) == Stored(before) + |text| && StoredBytes(after) == StoredBytes(before) + Bytes(text)
            else after == before
  {
    var events := Project(table, job);
    var e := Event(j, Tip(Project(table, j)), sha(Tip(Project(table, j)) + text), text);
    AppendProjects(table, e, job);
    assert (events + [e])[..|events|] == events && events + [] == events;
  }

  lemma AsciiText(text: string, v: Envelope, alphabet: set<char>)
    requires Plain(v) && AllAscii(alphabet) && Over(text, v, alphabet)
    ensures Bytes(text) == |text|
  {
    var body :| text == v.head + body + v.tail && forall i :: 0 <= i < |body| ==> body[i] in alphabet;
    assert Ascii(body) && Ascii(v.head + body) && Ascii(text);
    OneByteEach(text);
  }

  lemma {:induction false} AsciiStored(sha: string -> Digest, tries: seq<(string, string)>, job: string, v: Envelope, alphabet: set<char>)
    requires Plain(v) && AllAscii(alphabet) && KeepsTo(tries, job, v, alphabet)
    ensures var events := Project(Attempts(sha, tries), job); StoredBytes(events) == Stored(events)
  {
    if tries != [] {
      var n := |tries| - 1;
      assert forall i :: 0 <= i < n ==> tries[..n][i] == tries[i];
      AsciiStored(sha, tries[..n], job, v, alphabet);
      var table := Attempts(sha, tries[..n]);
      var (j, text) := tries[n];
      if Append(sha, table, j, text).Ok? {
        AppendAdds(sha, table, j, text, job);
        if j == job { AsciiText(text, v, alphabet); }
      }
    }
  }

  lemma {:induction false} BytesOfBoth(a: string, b: string)
    ensures Bytes(a + b) == Bytes(a) + Bytes(b)
  {
    if b == "" {
      assert a + b == a;
    } else {
      BytesOfBoth(a, b[..|b| - 1]);
      assert (a + b)[..|a + b| - 1] == a + b[..|b| - 1];
    }
  }

  const WIDE := 511 * 1024

  /** One character over and over, in an envelope. */
  function Wide(v: Envelope, c: char, n: nat): string { v.head + seq(n, _ => c) + v.tail }

  lemma {:induction false} RunBytes(c: char, n: nat)
    requires c as int >= 0x80
    ensures 2 * n <= Bytes(seq(n, _ => c)) <= 4 * n
  {
    if n > 0 {
      RunBytes(c, n - 1);
      assert seq(n, _ => c)[..n - 1] == seq(n - 1, _ => c);
    }
  }

  lemma WideBytes(v: Envelope, c: char, n: nat)
    requires Plain(v) && c as int >= 0x80
    ensures 2 * n <= Bytes(Wide(v, c, n)) <= 4 * n + 1024 && n <= |Wide(v, c, n)| <= n + 1024
  {
    RunBytes(c, n);
    OneByteEach(v.head);
    OneByteEach(v.tail);
    BytesOfBoth(v.head, seq(n, _ => c));
    BytesOfBoth(v.head + seq(n, _ => c), v.tail);
  }

  /** `n` attempts to journal one text. */
  function Repeated(job: string, text: string, n: nat): (tries: seq<(string, string)>)
    ensures forall i :: 0 <= i < |tries| ==> tries[i] == (job, text)
  {
    if n == 0 then [] else Repeated(job, text, n - 1) + [(job, text)]
  }

  function Times(n: nat, x: int): int { if n == 0 then 0 else Times(n - 1, x) + x }

  lemma {:induction false} TimesIs(n: nat, x: int)
    ensures Times(n, x) == n * x
  {
    if n > 0 { TimesIs(n - 1, x); }
  }

  ghost predicate HasTotals(sha: string -> Digest, tries: seq<(string, string)>, job: string, chars: int, bytes: int) {
    var events := Project(Attempts(sha, tries), job);
    Stored(events) == chars && StoredBytes(events) == bytes
  }

  /** An attempt that finds room adds its text to the totals of its job. */
  lemma OneMoreTry(sha: string -> Digest, tries: seq<(string, string)>, job: string, text: string, chars: int, bytes: int)
    requires HasTotals(sha, tries, job, chars, bytes) && Bytes(text) <= EVENT_BOUND && chars + Bytes(text) <= TOTAL_BOUND
    ensures HasTotals(sha, tries + [(job, text)], job, chars + |text|, bytes + Bytes(text))
  {
    assert (tries + [(job, text)])[..|tries|] == tries;
    AppendAdds(sha, Attempts(sha, tries), job, text, job);
  }

  lemma NoTries(sha: string -> Digest, job: string)
    ensures HasTotals(sha, [], job, 0, 0)
  {
  }

  lemma {:induction false} RepeatedTotals(sha: string -> Digest, job: string, text: string, size: int, n: nat)
    requires size == Bytes(text) <= EVENT_BOUND && Times(n, |text|) + EVENT_BOUND <= TOTAL_BOUND + |text|
    ensures HasTotals(sha, Repeated(job, text, n), job, Times(n, |text|), Times(n, size))
  {
    if n == 0 {
      NoTries(sha, job);
    } else {
      RepeatedTotals(sha, job, text, size, n - 1);
      OneMoreTry(sha, Repeated(job, text, n - 1), job, text, Times(n - 1, |text|), Times(n - 1, size));
    }
  }

  /** A text that passes the bound on one event fits as often as its characters, not its bytes, allow. */
  lemma RepeatedStored(sha: string -> Digest, job: string, text: string, n: nat)
    requires Bytes(text) <= EVENT_BOUND && n * |text| + EVENT_BOUND <= TOTAL_BOUND + |text|
    ensures var events := Project(Attempts(sha, Repeated(job, text, n)), job);
            Stored(events) == n * |text| && StoredBytes(events) == n * Bytes(text)
  {
    TimesIs(n, |text|);
    TimesIs(n, Bytes(text));
    RepeatedTotals(sha, job, text, Bytes(text), n);
  }

  ghost predicate WithinBytes(sha: string -> Digest, tries: seq<(string, string)>, job: string) {
    StoredBytes(Project(Attempts(sha, tries), job)) <= TOTAL_BOUND
  }

  /** Any character outside ASCII, in any envelope, can fill a journal beyond 16 MiB of UTF-8. */
  lemma BytesCanExceedBound(sha: string -> Digest, job: string, v: Envelope, c: char)
    requires Plain(v) && c as int >= 0x80
    ensures !WithinBytes(sha, Repeated(job, Wide(v, c, WIDE), 17), job)
  {
    WideBytes(v, c, WIDE);
    RepeatedStored(sha, job, Wide(v, c, WIDE), 17);
  }

  /**
   * The bound on characters is a bound on bytes exactly for ASCII: every run whose texts keep to an
   * alphabet, whatever envelope they share, stores at most 16 MiB of UTF-8 for a job if and only if
   * the alphabet is ASCII.
   */
  lemma ByteBoundIffAscii(sha: string -> Digest, job: string, v: Envelope, alphabet: set<char>)
    requires Plain(v)
    ensures (forall tries :: KeepsTo(tries, job, v, alphabet) ==> WithinBytes(sha, tries, job)) <==> AllAscii(alphabet)
  {
    if AllAscii(alphabet) {
      forall tries | KeepsTo(tries, job, v, alphabet) ensures WithinBytes(sha, tries, job) {
        AsciiStored(sha, tries, job, v, alphabet);
        EveryJobChained(sha, tries, job);
      }
    } else {
      var c :| c in alphabet && c as int >= 0x80;
      var body := seq(WIDE, _ => c);
      assert Wide(v, c, WIDE) == v.head + body + v.tail && forall i :: 0 <= i < |body| ==> body[i] in alphabet;
      BytesCanExceedBound(sha, job, v, c);
      assert KeepsTo(Repeated(job, Wide(v, c, WIDE), 17), job, v, alphabet);
    }
  }

  /** What the next event of the table adds to the total and the tip of a job. */
  lemma ProjectNext(table: seq<Event>, i: nat, job: string)
    requires i < |table|
    ensures var before, after := Project(table[..i], job), Project(table[..i + 1], job);
            if table[i].job == job then Stored(after) == Stored(before) + |table[i].text| && Tip(after) == table[i].sha
            else after == before
  {
    assert table[..i + 1] == table[..i] + [table[i]];
    AppendProjects(table[..i], table[i], job);
    var before := Project(table[..i], job);
    assert (before + [table[i]])[..|before|] == before && before + [] == before;
  }

  /** The journal as the service keeps it. */
  class JournalTable {
    var table: seq<Event>

    constructor ()
      ensures table == []
    {
      table := [];
    }

    /** The characters stored for a job and the digest its next event chains to. */
    method Scan(job: string) returns (count: int, previous: Digest)
      ensures count == Stored(Project(table, job)) && previous == Tip(Project(table, job))
    {
      previous, count := ZERO, 0;
      for i := 0 to |table|
        invariant count == Stored(Project(table[..i], job)) && previous == Tip(Project(table[..i], job))
      {
        ProjectNext(table, i, job);
        if table[i].job == job { count, previous := count + |table[i].text|, table[i].sha; }
      }
      assert table[..|table|] == table;
    }

    method Record(sha: string -> Digest, job: string, text: string) returns (refused: Option<Refusal>)
      modifies this
      ensures match Append(sha, old(table), job, text)
              case Ok(t) => refused == None && table == t
              case Err(e) => refused == Some(e) && table == old(table)
    {
      if Bytes(text) > EVENT_BOUND { return Some(EventBound); }
      var count, previous := Scan(job);
      if count + Bytes(text) > TOTAL_BOUND { return Some(TotalBound); }
      table := table + [Event(job, previous, sha(previous + text), text)];
      refused := None;
    }
  }
}
