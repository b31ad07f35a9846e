/** The schema migration runner: pending migrations are applied one transaction each. */
module Migration {
  import opened Common
  import opened Strings

  datatype Script = Script(version: string, filename: string, upSQL: string, checksum: string)

  datatype Applied = Applied(version: string, filename: string, checksum: string)

  /** The committed database: the rows of schema_migrations in the order they were inserted, and
      the statements that made the rest of the schema. */
  datatype Database = Database(log: seq<Applied>, schema: seq<string>)

  const EMPTY := Database([], [])

  /** Where a run is cut short, within the migration at hand. A failed commit may or may not
      have taken effect. */
  datatype Stage = AtBegin | AtStatement(k: nat) | AtRecord | AtCommit(took: bool)

  /** The run is cut at the pending migration with this number. */
  datatype Cut = NoCut | CutAt(number: nat, stage: Stage)

  datatype Failure = ChecksumChanged | RunCut

  const BY_VERSION: Script -> string := (m: Script) => m.version

  // ---------------------------------------------------------------- loading

  /** Sorts the scripts by version; two scripts of one version are an error. */
  method SortScripts(scripts: seq<Script>) returns (sorted: Option<seq<Script>>)
    ensures sorted.None? <==> exists i, j :: 0 <= i < j < |scripts| && scripts[i].version == scripts[j].version
    ensures sorted.Some? ==> StrictlyIncreasing(BY_VERSION, sorted.value) && multiset(sorted.value) == multiset(scripts)
  {
    hide Sort, Less, SortedBy, StrictlyIncreasing;
    var s := Sort(BY_VERSION, scripts);
    SortSorts(BY_VERSION, scripts);
    var i := 1;
    while i < |s|
      invariant 1 <= i
      invariant forall j :: 0 < j < i && j < |s| ==> BY_VERSION(s[j - 1]) != BY_VERSION(s[j])
    {
      if s[i - 1].version == s[i].version {
        TwiceIsTwice(s, scripts, i - 1, i);
        return None;
      }
      i := i + 1;
    }
    SortedWithoutEqualNeighbours(BY_VERSION, s);
    NoTwins(s, scripts);
    sorted := Some(s);
  }

  /** Rearranging a list does not remove a repeated version. */
  lemma TwiceIsTwice(s: seq<Script>, t: seq<Script>, i: nat, j: nat)
    requires multiset(s) == multiset(t) && i < j < |s| && s[i].version == s[j].version
    ensures exists k, l :: 0 <= k < l < |t| && t[k].version == t[l].version
  {
    var x, y := s[i], s[j];
    if x == y { OccursTwice(s, i, j); }
    assert x in multiset(s) && y in multiset(s);
    assert x in multiset(t);
    var k :| 0 <= k < |t| && t[k] == x;
    var others := t[..k] + t[k + 1..];
    WithoutOne(t, k);
    assert y in multiset(others);
    var l :| 0 <= l < |others| && others[l] == y;
    var m := if l < k then l else l + 1;
    assert t[m] == y && m != k;
    var lo, hi := if m < k then m else k, if m < k then k else m;
    assert t[lo].version == t[hi].version;
  }

  lemma WithoutOne<T>(s: seq<T>, k: nat)
    requires k < |s|
    ensures multiset(s) == multiset(s[..k] + s[k + 1..]) + multiset{s[k]}
  {
    assert s == s[..k] + [s[k]] + s[k + 1..];
  }

  lemma NoTwins(s: seq<Script>, t: seq<Script>)
    requires multiset(s) == multiset(t) && StrictlyIncreasing(BY_VERSION, s)
    ensures forall i, j :: 0 <= i < j < |t| ==> t[i].version != t[j].version
  {
    forall k, l | 0 <= k < l < |s| ensures s[k].version != s[l].version {
      LessIsTotal(BY_VERSION(s[k]), BY_VERSION(s[l]));
    }
    forall i, j | 0 <= i < j < |t| ensures t[i].version != t[j].version {
      if t[i].version == t[j].version {
        TwiceIsTwice(t, s, i, j);
        assert false;
      }
    }
  }

  // ---------------------------------------------------------------- what is pending

  function Statements(parts: seq<string>): seq<string> {
    if parts == [] then []
    else if TrimSpace(parts[0]) == "" then Statements(parts[1..])
    else [TrimSpace(parts[0])] + Statements(parts[1..])
  }

  function StatementsOf(m: Script): seq<string> {
    Statements(Split(m.upSQL, ';'))
  }

  /** Of the parts from n on: statement i is part at[i], trimmed, and every part that is not blank
      is listed, in order. */
  ghost predicate Lists(parts: seq<string>, n: nat, at: seq<nat>, statements: seq<string>) {
    && |at| == |statements|
    && (forall i, j :: 0 <= i < j < |at| ==> at[i] < at[j])
    && (forall i :: 0 <= i < |at| ==> n <= at[i] < |parts| && statements[i] == TrimSpace(parts[at[i]]) != "")
    && (forall k :: n <= k < |parts| && TrimSpace(parts[k]) != "" ==> k in at)
  }

  lemma {:induction false} PartsAreListed(parts: seq<string>, n: nat) returns (at: seq<nat>)
    requires n <= |parts|
    ensures Lists(parts, n, at, Statements(parts[n..]))
    decreases |parts| - n
  {
    hide TrimSpace;
    if n == |parts| {
      at := [];
    } else {
      at := PartsAreListed(parts, n + 1);
      var blank := TrimSpace(parts[n]) == "";
      assert parts[n..][1..] == parts[n + 1..];
      if !blank {
        at := [n] + at;
      }
    }
  }

  /** The statements of a migration: the text cut at every semicolon, and of the parts those that
      are not blank, each trimmed, in order and as often as they occur. */
  lemma StatementsAreTheParts(m: Script) returns (parts: seq<string>, at: seq<nat>)
    ensures parts != [] && Join(parts, ';') == m.upSQL && forall p :: p in parts ==> ';' !in p
    ensures Lists(parts, 0, at, StatementsOf(m))
  {
    parts := Split(m.upSQL, ';');
    JoinOfSplit(m.upSQL, ';');
    at := PartsAreListed(parts, 0);
    assert parts[0..] == parts;
  }

  /** And that is the only way to cut and to list them. */
  lemma StatementsAreUnique(m: Script, parts: seq<string>, at: seq<nat>, statements: seq<string>)
    requires parts != [] && Join(parts, ';') == m.upSQL && forall p :: p in parts ==> ';' !in p
    requires Lists(parts, 0, at, statements)
    ensures statements == StatementsOf(m)
  {
    SplitOfJoin(parts, ';');
    var own := PartsAreListed(parts, 0);
    assert parts[0..] == parts;
    forall k ensures k in at <==> k in own {}
    IncreasingAreEqual(at, own);
  }

  lemma HasMember(s: seq<nat>)
    requires s != []
    ensures exists k :: k in s
  {
    assert s[0] in s;
  }

  lemma {:induction false} IncreasingAreEqual(a: seq<nat>, b: seq<nat>)
    requires forall i, j :: 0 <= i < j < |a| ==> a[i] < a[j]
    requires forall i, j :: 0 <= i < j < |b| ==> b[i] < b[j]
    requires forall k :: k in a <==> k in b
    ensures a == b
  {
    if a == [] || b == [] {
      if a != [] { HasMember(a); }
      if b != [] { HasMember(b); }
    } else {
      assert a[0] in b && b[0] in a;
      assert a == [a[0]] + a[1..] && b == [b[0]] + b[1..];
      forall k ensures k in a[1..] <==> k in b[1..] {
        assert k in a[1..] <==> k in a && k != a[0];
        assert k in b[1..] <==> k in b && k != b[0];
      }
      IncreasingAreEqual(a[1..], b[1..]);
    }
  }

  /** The last row for a version. */
  function RowFor(log: seq<Applied>, version: string): Option<Applied> {
    if log == [] then None
    else if log[|log| - 1].version == version then Some(log[|log| - 1])
    else RowFor(log[..|log| - 1], version)
  }

  predicate Mismatch(log: seq<Applied>, m: Script) {
    RowFor(log, m.version).Some? && RowFor(log, m.version).value.checksum != m.checksum
  }

  function PendingOf(log: seq<Applied>, scripts: seq<Script>): Option<seq<Script>> {
    if scripts == [] then Some([]) else
    var m, rest := scripts[|scripts| - 1], PendingOf(log, scripts[..|scripts| - 1]);
    if rest.None? || Mismatch(log, m) then None
    else if RowFor(log, m.version).Some? then rest
    else Some(rest.value + [m])
  }

  // ---------------------------------------------------------------- applying

  function RowOf(m: Script): Applied {
    Applied(m.version, m.filename, m.checksum)
  }

  function Committed(db: Database, m: Script): Database {
    Database(db.log + [RowOf(m)], db.schema + StatementsOf(m))
  }

  /** Whether the cut stops the migration with this number, and whether it was committed then. */
  predicate Hits(cut: Cut, number: nat, m: Script) {
    cut.CutAt? && cut.number == number && (cut.stage.AtStatement? ==> cut.stage.k < |StatementsOf(m)|)
  }

  predicate CommitTook(cut: Cut) {
    cut.CutAt? && cut.stage == AtCommit(true)
  }

  /** Applies pending[number..]; the result also says how many were reported as applied. */
  function ApplyFrom(db: Database, pending: seq<Script>, number: nat, cut: Cut): (Database, Result<nat, Failure>)
    requires number <= |pending|
    decreases |pending| - number
  {
    if number == |pending| then (db, Success(number)) else
    var m := pending[number];
    if Hits(cut, number, m) then (if CommitTook(cut) then Committed(db, m) else db, Failure(RunCut))
    else ApplyFrom(Committed(db, m), pending, number + 1, cut)
  }

  function Apply(db: Database, scripts: seq<Script>, cut: Cut): (Database, Result<nat, Failure>) {
    var pending := PendingOf(db.log, scripts);
    if pending.None? then (db, Failure(ChecksumChanged)) else ApplyFrom(db, pending.value, 0, cut)
  }

  // ---------------------------------------------------------------- the runner

  class Connection {
    var committed: Database

    constructor ()
      ensures committed == EMPTY
    {
      committed := EMPTY;
    }
  }

  class Runner {
    const db: Connection
    const scripts: seq<Script>

    constructor (db: Connection, scripts: seq<Script>)
      ensures this.db == db && this.scripts == scripts
    {
      this.db, this.scripts := db, scripts;
    }

    /** The rows of schema_migrations as a map by version. */
    method ReadApplied() returns (applied: map<string, Applied>)
      ensures forall v :: (if v in applied then Some(applied[v]) else None) == RowFor(db.committed.log, v)
    {
      applied := map[];
      var rows := db.committed.log;
      for i := 0 to |rows|
        invariant rows == db.committed.log
        invariant forall v :: (if v in applied then Some(applied[v]) else None) == RowFor(rows[..i], v)
      {
        assert rows[..i + 1][..i] == rows[..i];
        applied := applied[rows[i].version := rows[i]];
      }
      assert rows[..|rows|] == rows;
    }

    method Pending() returns (pending: Option<seq<Script>>)
      ensures pending == PendingOf(db.committed.log, scripts)
    {
      var applied := ReadApplied();
      var todo := [];
      for i := 0 to |scripts|
        invariant PendingOf(db.committed.log, scripts[..i]) == Some(todo)
      {
        var m := scripts[i];
        assert scripts[..i + 1][..i] == scripts[..i];
        assert (if m.version in applied then Some(applied[m.version]) else None) == RowFor(db.committed.log, m.version);
        if m.version !in applied {
          todo := todo + [m];
        } else if applied[m.version].checksum != m.checksum {
          MismatchStops(db.committed.log, scripts, i + 1);
          return None;
        }
      }
      assert scripts[..|scripts|] == scripts;
      pending := Some(todo);
    }

    method ApplyPending(cut: Cut) returns (result: Result<nat, Failure>)
      modifies db
      ensures (db.committed, result) == Apply(old(db.committed), scripts, cut)
    {
      hide StatementsOf, PendingOf, RowOf;
      var pending := Pending();
      if pending.None? {
        return Failure(ChecksumChanged);
      }
      var todo := pending.value;
      for i := 0 to |todo|
        invariant ApplyFrom(old(db.committed), todo, 0, cut) == ApplyFrom(db.committed, todo, i, cut)
      {
        var m := todo[i];
        if cut == CutAt(i, AtBegin) {
          return Failure(RunCut);
        }
        var tx := db.committed;
        var statements := StatementsOf(m);
        for k := 0 to |statements|
          invariant tx == db.committed.(schema := db.committed.schema + statements[..k])
          invariant cut.CutAt? && cut.number == i ==>
                      !cut.stage.AtBegin? && (cut.stage.AtStatement? ==> k <= cut.stage.k)
        {
          if cut == CutAt(i, AtStatement(k)) {
            return Failure(RunCut); // the transaction is rolled back
          }
          tx := tx.(schema := tx.schema + [statements[k]]);
          assert statements[..k + 1] == statements[..k] + [statements[k]];
        }
        assert statements[..|statements|] == statements;
        if cut == CutAt(i, AtRecord) {
          return Failure(RunCut);
        }
        tx := tx.(log := tx.log + [RowOf(m)]);
        if cut == CutAt(i, AtCommit(false)) {
          return Failure(RunCut);
        }
        if cut == CutAt(i, AtCommit(true)) {
          db.committed := tx;
          return Failure(RunCut);
        }
        db.committed := tx;
      }
      result := Success(|todo|);
    }
  }

  lemma {:induction false} MismatchStops(log: seq<Applied>, scripts: seq<Script>, n: nat)
    requires n <= |scripts| && PendingOf(log, scripts[..n]).None?
    ensures PendingOf(log, scripts).None?
    decreases |scripts|
  {
    if n < |scripts| {
      assert scripts[..|scripts| - 1][..n] == scripts[..n];
      MismatchStops(log, scripts[..|scripts| - 1], n);
    } else {
      assert scripts[..n] == scripts;
    }
  }

  // ---------------------------------------------------------------- resuming

  /** The database after the first n scripts, applied without interruption. */
  function After(scripts: seq<Script>, n: nat): Database
    requires n <= |scripts|
  {
    if n == 0 then EMPTY else Committed(After(scripts, n - 1), scripts[n - 1])
  }

  lemma {:induction false} LogIsPrefix(scripts: seq<Script>, n: nat)
    requires n <= |scripts|
    ensures |After(scripts, n).log| == n
    ensures forall i :: 0 <= i < n ==> After(scripts, n).log[i] == RowOf(scripts[i])
  {
    if n > 0 {
      LogIsPrefix(scripts, n - 1);
    }
  }

  lemma RowForExtends(log: seq<Applied>, row: Applied, version: string)
    ensures RowFor(log + [row], version) == if row.version == version then Some(row) else RowFor(log, version)
  {
    assert (log + [row])[..|log|] == log;
  }

  lemma SameVersionSameScript(scripts: seq<Script>, i: nat, j: nat)
    requires StrictlyIncreasing(BY_VERSION, scripts) && i < |scripts| && j < |scripts|
    requires scripts[i].version == scripts[j].version
    ensures i == j
  {
    var lo, hi := if i < j then i else j, if i < j then j else i;
    LessIsTotal(BY_VERSION(scripts[lo]), BY_VERSION(scripts[hi]));
  }

  lemma {:induction false} RowForAfter(scripts: seq<Script>, n: nat, i: nat)
    requires StrictlyIncreasing(BY_VERSION, scripts) && n <= |scripts| && i < |scripts|
    ensures RowFor(After(scripts, n).log, scripts[i].version) == if i < n then Some(RowOf(scripts[i])) else None
  {
    hide StatementsOf, StrictlyIncreasing;
    if n > 0 {
      RowForAfter(scripts, n - 1, i);
      RowForExtends(After(scripts, n - 1).log, RowOf(scripts[n - 1]), scripts[i].version);
      if scripts[i].version == scripts[n - 1].version {
        SameVersionSameScript(scripts, i, n - 1);
      }
      hide RowFor;
    }
  }

  lemma {:induction false} PendingAfter(scripts: seq<Script>, n: nat, k: nat)
    requires StrictlyIncreasing(BY_VERSION, scripts) && n <= |scripts| && k <= |scripts|
    ensures PendingOf(After(scripts, n).log, scripts[..k]) == Some(if n <= k then scripts[n..k] else [])
  {
    hide After, RowFor, StatementsOf, StrictlyIncreasing;
    if k > 0 {
      PendingAfter(scripts, n, k - 1);
      RowForAfter(scripts, n, k - 1);
      var log, m, some := After(scripts, n).log, scripts[k - 1], scripts[..k];
      assert some[..|some| - 1] == scripts[..k - 1] && some[|some| - 1] == m;
      assert !Mismatch(log, m);
      assert n == k ==> scripts[n..k] == [];
      assert n < k ==> scripts[n..k] == scripts[n..k - 1] + [m];
    }
  }

  /** The run that starts after n scripts does not get through its scripts: it has one with the
      number of the cut, and that one has as many statements as the cut counts. */
  predicate CutShort(scripts: seq<Script>, n: nat, cut: Cut) {
    && cut.CutAt? && n + cut.number < |scripts|
    && (cut.stage.AtStatement? ==> cut.stage.k < |StatementsOf(scripts[n + cut.number])|)
  }

  /** How far a run gets that starts after n scripts. */
  function Reached(scripts: seq<Script>, n: nat, cut: Cut): (r: nat)
    requires n <= |scripts|
    ensures n <= r <= |scripts|
  {
    if cut.NoCut? || n + cut.number >= |scripts| || !Hits(cut, cut.number, scripts[n + cut.number]) then |scripts|
    else if CommitTook(cut) then n + cut.number + 1
    else n + cut.number
  }

  lemma {:induction false} ApplyFromReaches(scripts: seq<Script>, n: nat, number: nat, cut: Cut)
    requires n + number <= |scripts|
    requires cut.CutAt? && cut.number < number ==> !Hits(cut, cut.number, scripts[n + cut.number])
    ensures var (db, result) := ApplyFrom(After(scripts, n + number), scripts[n..], number, cut);
            && db == After(scripts, Reached(scripts, n, cut))
            && (result.Failure? <==>
                cut.CutAt? && n + cut.number < |scripts| && Hits(cut, cut.number, scripts[n + cut.number]))
    decreases |scripts| - n - number
  {
    hide StatementsOf;
    if n + number < |scripts| && !Hits(cut, number, scripts[n + number]) {
      ApplyFromReaches(scripts, n, number + 1, cut);
    }
  }

  /** A run that starts after n scripts ends after the scripts it got to, and nowhere else. */
  lemma ApplyReaches(scripts: seq<Script>, n: nat, cut: Cut)
    requires StrictlyIncreasing(BY_VERSION, scripts) && n <= |scripts|
    ensures Apply(After(scripts, n), scripts, cut).0 == After(scripts, Reached(scripts, n, cut))
    ensures cut.NoCut? ==> Apply(After(scripts, n), scripts, cut).1 == Success(|scripts| - n)
    ensures if CutShort(scripts, n, cut)
            then Reached(scripts, n, cut) == n + cut.number + if cut.stage == AtCommit(true) then 1 else 0
            else Reached(scripts, n, cut) == |scripts|
    ensures Apply(After(scripts, n), scripts, cut).1.Failure? <==> CutShort(scripts, n, cut)
  {
    hide StatementsOf, PendingOf, ApplyFrom, After;
    PendingAfter(scripts, n, |scripts|);
    assert scripts[..|scripts|] == scripts && scripts[n..|scripts|] == scripts[n..];
    ApplyFromReaches(scripts, n, 0, cut);
    if cut.NoCut? {
      ApplyCounts(After(scripts, n), scripts[n..], 0);
    }
  }

  lemma {:induction false} ApplyCounts(db: Database, pending: seq<Script>, number: nat)
    requires number <= |pending|
    ensures ApplyFrom(db, pending, number, NoCut).1 == Success(|pending|)
    decreases |pending| - number
  {
    if number < |pending| {
      ApplyCounts(Committed(db, pending[number]), pending, number + 1);
    }
  }

  /** The database after any sequence of runs, each cut short or not. */
  function Runs(scripts: seq<Script>, cuts: seq<Cut>): Database {
    if cuts == [] then EMPTY else Apply(Runs(scripts, cuts[..|cuts| - 1]), scripts, cuts[|cuts| - 1]).0
  }

  lemma {:induction false} RunsReachAPrefix(scripts: seq<Script>, cuts: seq<Cut>) returns (n: nat)
    requires StrictlyIncreasing(BY_VERSION, scripts)
    ensures n <= |scripts| && Runs(scripts, cuts) == After(scripts, n)
  {
    if cuts == [] {
      n := 0;
    } else {
      n := RunsReachAPrefix(scripts, cuts[..|cuts| - 1]);
      ApplyReaches(scripts, n, cuts[|cuts| - 1]);
      n := Reached(scripts, n, cuts[|cuts| - 1]);
    }
  }

  /** After any number of runs, cut short at any statement or commit: the log lists a prefix of
      the scripts; one run without a cut reaches exactly the database of a single uninterrupted
      run; and one more changes nothing. */
  lemma InterruptedRunsResume(scripts: seq<Script>, cuts: seq<Cut>)
    requires StrictlyIncreasing(BY_VERSION, scripts)
    ensures var db := Runs(scripts, cuts);
            && |db.log| <= |scripts| && (forall i :: 0 <= i < |db.log| ==> db.log[i] == RowOf(scripts[i]))
            && Apply(db, scripts, NoCut).0 == Apply(EMPTY, scripts, NoCut).0
            && Apply(Apply(db, scripts, NoCut).0, scripts, NoCut) == (Apply(EMPTY, scripts, NoCut).0, Success(0))
  {
    var n := RunsReachAPrefix(scripts, cuts);
    LogIsPrefix(scripts, n);
    ApplyReaches(scripts, n, NoCut);
    ApplyReaches(scripts, 0, NoCut);
    ApplyReaches(scripts, |scripts|, NoCut);
  }

  // ---------------------------------------------------------------- what is in the database

  /** The text is the parts with a semicolon between any two, and the statements are those parts
      that are not blank, each trimmed, in order and as often as they occur. */
  ghost predicate CutsInto(m: Script, parts: seq<string>, at: seq<nat>, statements: seq<string>) {
    && parts != [] && Join(parts, ';') == m.upSQL && (forall p :: p in parts ==> ';' !in p)
    && Lists(parts, 0, at, statements)
  }

  ghost predicate ConsistsOf(m: Script, statements: seq<string>) {
    exists parts, at :: CutsInto(m, parts, at, statements)
  }

  function Concat(lists: seq<seq<string>>): seq<string> {
    if lists == [] then [] else Concat(lists[..|lists| - 1]) + lists[|lists| - 1]
  }

  /** The rows name the first scripts in order, and the schema is what their statements made, script
      by script, each executed once and in order. */
  ghost predicate HoldsFirst(db: Database, scripts: seq<Script>, lists: seq<seq<string>>) {
    && |db.log| == |lists| <= |scripts| && db.schema == Concat(lists)
    && forall i :: 0 <= i < |db.log| ==>
         && ConsistsOf(scripts[i], lists[i])
         && db.log[i].version == scripts[i].version && db.log[i].filename == scripts[i].filename
         && db.log[i].checksum == scripts[i].checksum
  }

  lemma StatementsAreListed(m: Script)
    ensures ConsistsOf(m, StatementsOf(m))
  {
    hide Lists, Join;
    var parts, at := StatementsAreTheParts(m);
    assert CutsInto(m, parts, at, StatementsOf(m));
  }

  lemma {:induction false} AfterHoldsFirst(scripts: seq<Script>, n: nat) returns (lists: seq<seq<string>>)
    requires n <= |scripts|
    ensures HoldsFirst(After(scripts, n), scripts, lists) && |lists| == n
  {
    hide StatementsOf, ConsistsOf;
    lists := [];
    if n > 0 {
      lists := AfterHoldsFirst(scripts, n - 1);
      var own := StatementsOf(scripts[n - 1]);
      StatementsAreListed(scripts[n - 1]);
      assert (lists + [own])[..n - 1] == lists;
      lists := lists + [own];
    }
  }

  /** After any runs, each cut short anywhere or not: the database holds the first scripts, as many
      as there are rows, with all of their statements and no others. After a run that was not cut
      it holds them all. */
  lemma DatabaseHoldsTheFirstScripts(scripts: seq<Script>, cuts: seq<Cut>) returns (lists: seq<seq<string>>)
    requires StrictlyIncreasing(BY_VERSION, scripts)
    ensures HoldsFirst(Runs(scripts, cuts), scripts, lists)
    ensures cuts != [] && cuts[|cuts| - 1].NoCut? ==> |lists| == |scripts|
  {
    hide Apply, After, HoldsFirst, StrictlyIncreasing;
    if cuts == [] {
      lists := AfterHoldsFirst(scripts, 0);
      assert After(scripts, 0) == EMPTY by { NothingApplied(scripts); }
    } else {
      var n := RunsReachAPrefix(scripts, cuts[..|cuts| - 1]);
      ApplyReaches(scripts, n, cuts[|cuts| - 1]);
      lists := AfterHoldsFirst(scripts, Reached(scripts, n, cuts[|cuts| - 1]));
    }
  }

  lemma NothingApplied(scripts: seq<Script>)
    ensures After(scripts, 0) == EMPTY
  {}

  /** Two databases that hold the first scripts and have equally many rows are the same. */
  lemma SameRowsSameDatabase(scripts: seq<Script>, a: Database, b: Database,
                             x: seq<seq<string>>, y: seq<seq<string>>)
    requires HoldsFirst(a, scripts, x) && HoldsFirst(b, scripts, y) && |a.log| == |b.log|
    ensures a == b
  {
    forall i | 0 <= i < |x| ensures x[i] == y[i] {
      var parts, at :| CutsInto(scripts[i], parts, at, x[i]);
      var parts', at' :| CutsInto(scripts[i], parts', at', y[i]);
      StatementsAreUnique(scripts[i], parts, at, x[i]);
      StatementsAreUnique(scripts[i], parts', at', y[i]);
    }
    assert x == y;
    forall i | 0 <= i < |a.log| ensures a.log[i] == b.log[i] {}
  }

  // ---------------------------------------------------------------- upgrades

  lemma {:induction false} AppliedStays(db: Database, pending: seq<Script>, number: nat, cut: Cut)
    requires number <= |pending|
    ensures db.log <= ApplyFrom(db, pending, number, cut).0.log
    decreases |pending| - number
  {
    hide Hits, StatementsOf;
    if number < |pending| { AppliedStays(Committed(db, pending[number]), pending, number + 1, cut); }
  }

  lemma {:induction false} AfterSame(a: seq<Script>, b: seq<Script>, n: nat)
    requires n <= |a| && n <= |b| && a[..n] == b[..n]
    ensures After(a, n) == After(b, n)
  {
    if n > 0 {
      assert a[..n - 1] == a[..n][..n - 1] && b[..n - 1] == b[..n][..n - 1];
      AfterSame(a, b, n - 1);
      assert a[n - 1] == a[..n][n - 1] && b[n - 1] == b[..n][n - 1];
    }
  }

  lemma SameRowsSamePlaces(known: seq<Script>, grown: seq<Script>, n: nat)
    requires StrictlyIncreasing(BY_VERSION, grown) && (forall m :: m in known ==> m in grown) && n <= |known|
    requires After(known, n).log <= After(grown, |grown|).log
    ensures n <= |grown| && known[..n] == grown[..n]
  {
    hide StatementsOf, StrictlyIncreasing, After;
    LogIsPrefix(known, n);
    LogIsPrefix(grown, |grown|);
    forall i | 0 <= i < n ensures known[i] == grown[i] {
      assert After(known, n).log[i] == After(grown, |grown|).log[i];
      assert known[i] in grown;
      var k :| 0 <= k < |grown| && grown[k] == known[i];
      SameVersionSameScript(grown, i, k);
    }
  }

  /** After any runs of the known scripts, a run of a larger set gives the database of a fresh install
      exactly when every script that is applied already has the same place in the new set; a
      script added below one of them always makes a difference. */
  lemma UpgradeIsAFreshInstallExactlyWhen(known: seq<Script>, grown: seq<Script>, cuts: seq<Cut>)
    requires StrictlyIncreasing(BY_VERSION, known) && StrictlyIncreasing(BY_VERSION, grown)
    requires forall m :: m in known ==> m in grown
    ensures var db := Runs(known, cuts);
            && |db.log| <= |known|
            && (Apply(db, grown, NoCut).0 == Apply(EMPTY, grown, NoCut).0 <==>
                |db.log| <= |grown| && known[..|db.log|] == grown[..|db.log|])
  {
    hide Apply, ApplyFrom, After, StrictlyIncreasing, PendingOf;
    var n := RunsReachAPrefix(known, cuts);
    var db := Runs(known, cuts);
    LogIsPrefix(known, n);
    NothingApplied(grown);
    ApplyReaches(grown, 0, NoCut);
    if n <= |grown| && known[..n] == grown[..n] {
      AfterSame(known, grown, n);
      ApplyReaches(grown, n, NoCut);
    } else if Apply(db, grown, NoCut).0 == Apply(EMPTY, grown, NoCut).0 {
      ApplyKeepsTheLog(db, grown, NoCut);
      SameRowsSamePlaces(known, grown, n);
    }
  }

  lemma ApplyKeepsTheLog(db: Database, scripts: seq<Script>, cut: Cut)
    ensures db.log <= Apply(db, scripts, cut).0.log
  {
    hide ApplyFrom, PendingOf;
    if PendingOf(db.log, scripts).Some? { AppliedStays(db, PendingOf(db.log, scripts).value, 0, cut); }
  }

  /** Row j is the last one for a version. */
  predicate LastRow(log: seq<Applied>, version: string, j: nat) {
    j < |log| && log[j].version == version && forall k :: j < k < |log| ==> log[k].version != version
  }

  lemma {:induction false} RowForMeans(log: seq<Applied>, version: string)
    ensures RowFor(log, version).None? <==> forall j :: 0 <= j < |log| ==> log[j].version != version
    ensures RowFor(log, version).Some? ==>
              exists j :: 0 <= j < |log| && LastRow(log, version, j) && log[j] == RowFor(log, version).value
  {
    if log != [] {
      var rest, n := log[..|log| - 1], |log| - 1;
      if log[n].version == version {
        assert LastRow(log, version, n);
      } else {
        RowForMeans(rest, version);
        if RowFor(rest, version).Some? {
          var j :| 0 <= j < n && LastRow(rest, version, j) && rest[j] == RowFor(rest, version).value;
          assert LastRow(log, version, j);
        }
      }
    }
  }

  /** A script was applied before, and its text has changed since. */
  ghost predicate ChangedSince(log: seq<Applied>, m: Script) {
    exists j :: 0 <= j < |log| && LastRow(log, m.version, j) && log[j].checksum != m.checksum
  }

  lemma MismatchMeans(log: seq<Applied>, m: Script)
    ensures Mismatch(log, m) <==> ChangedSince(log, m)
  {
    RowForMeans(log, m.version);
  }

  /** A run is refused, and changes nothing, exactly when some script was applied before with another
      checksum. */
  lemma ChangedScriptsAreRefused(db: Database, scripts: seq<Script>, cut: Cut)
    ensures Apply(db, scripts, cut).1 == Failure(ChecksumChanged) <==>
            exists i :: 0 <= i < |scripts| && ChangedSince(db.log, scripts[i])
    ensures Apply(db, scripts, cut).1 == Failure(ChecksumChanged) ==> Apply(db, scripts, cut).0 == db
  {
    ChecksumChangeStopsEverything(db, scripts, cut);
    forall i | 0 <= i < |scripts| ensures Mismatch(db.log, scripts[i]) <==> ChangedSince(db.log, scripts[i]) {
      MismatchMeans(db.log, scripts[i]);
    }
    hide Mismatch, ChangedSince, PendingOf;
    if PendingOf(db.log, scripts).Some? { OnlyCuts(db, PendingOf(db.log, scripts).value, 0, cut); }
  }

  lemma {:induction false} OnlyCuts(db: Database, pending: seq<Script>, number: nat, cut: Cut)
    requires number <= |pending|
    ensures ApplyFrom(db, pending, number, cut).1 != Failure(ChecksumChanged)
    decreases |pending| - number
  {
    hide Hits, Committed;
    if number < |pending| { OnlyCuts(Committed(db, pending[number]), pending, number + 1, cut); }
  }

  /** A run is refused, and changes nothing, exactly when some script's checksum differs from the
      one recorded for its version. */
  lemma {:induction false} ChecksumChangeStopsEverything(db: Database, scripts: seq<Script>, cut: Cut)
    ensures PendingOf(db.log, scripts).None? <==> exists i :: 0 <= i < |scripts| && Mismatch(db.log, scripts[i])
    ensures PendingOf(db.log, scripts).None? ==> Apply(db, scripts, cut) == (db, Failure(ChecksumChanged))
  {
    if scripts != [] {
      var rest := scripts[..|scripts| - 1];
      ChecksumChangeStopsEverything(db, rest, cut);
      if exists i :: 0 <= i < |scripts| && Mismatch(db.log, scripts[i]) {
        var i :| 0 <= i < |scripts| && Mismatch(db.log, scripts[i]);
        assert i < |rest| ==> Mismatch(db.log, rest[i]);
      }
      if exists i :: 0 <= i < |rest| && Mismatch(db.log, rest[i]) {
        var i :| 0 <= i < |rest| && Mismatch(db.log, rest[i]);
        assert Mismatch(db.log, scripts[i]);
      }
    }
  }
}
