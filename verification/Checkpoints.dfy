/** Snapshots of files before they are changed: one directory a checkpoint, at most a hundred
    entries a file over all of them. */
module Checkpoints {
  import opened Wrappers
  import opened Decimals

  const KEEP: nat := 100

  /** A checkpoint's name: its time, and a counter that no two checkpoints of a process share. */
  datatype Id = Id(ts: nat, seqNo: nat)

  predicate Newer(a: Id, b: Id) { a.ts > b.ts || (a.ts == b.ts && a.seqNo > b.seqNo) }

  // ---- Which checkpoints hold a file ----

  function NewerIn(s: set<Id>, id: Id): set<Id> { set x | x in s && Newer(x, id) }

  /** Those with fewer than a hundred newer ones. */
  function Top(s: set<Id>): set<Id> { set x | x in s && |NewerIn(s, x)| < KEEP }

  lemma SubsetSize<T>(a: set<T>, b: set<T>)
    requires a <= b
    ensures |a| <= |b|
  {
    assert b == a + (b - a);
  }

  lemma {:induction false} HasOldest(s: set<Id>) returns (m: Id)
    requires s != {}
    ensures m in s && forall x | x in s && x != m :: Newer(x, m)
    decreases |s|
  {
    var x :| x in s;
    if s == {x} {
      m := x;
    } else {
      var rest := s - {x};
      assert s == rest + {x};
      var n := HasOldest(rest);
      m := if Newer(n, x) then x else n;
      forall y | y in s && y != m ensures Newer(y, m) {
        assert y == x || y == n || Newer(y, n);
      }
    }
  }

  /** The top of a set has a hundred members, or all if there are fewer. */
  lemma {:induction false} TopSize(s: set<Id>)
    ensures |Top(s)| == if |s| < KEEP then |s| else KEEP
    decreases |s|
  {
    if |s| <= KEEP {
      forall x | x in s ensures |NewerIn(s, x)| < KEEP {
        SubsetSize(NewerIn(s, x), s - {x});
      }
      assert Top(s) == s;
    } else {
      var m := HasOldest(s);
      var rest := s - {m};
      TopSize(rest);
      assert NewerIn(s, m) == rest;
      forall x | x in rest ensures NewerIn(s, x) == NewerIn(rest, x) {
        assert !Newer(m, x);
      }
      assert Top(s) == Top(rest);
    }
  }

  /** Whatever is newer than a member of the top is in the top. */
  lemma TopIsUp(s: set<Id>, x: Id)
    requires x in Top(s)
    ensures NewerIn(s, x) <= Top(s)
  {
    forall y | y in NewerIn(s, x) ensures y in Top(s) {
      SubsetSize(NewerIn(s, y), NewerIn(s, x));
    }
  }

  /** Keeping the top after every addition is keeping the top of all that was ever added. */
  lemma TopOfTop(s: set<Id>, x: Id)
    requires x !in s
    ensures Top(Top(s) + {x}) == Top(s + {x})
  {
    forall id | id in Top(s) ensures NewerIn(Top(s) + {x}, id) == NewerIn(s + {x}, id) {
      TopIsUp(s, id);
    }
    NewestOfTop(s, x);
    forall id ensures id in Top(Top(s) + {x}) <==> id in Top(s + {x}) {
      if id in s && id !in Top(s) {
        SubsetSize(NewerIn(s, id), NewerIn(s + {x}, id));
      }
      if id == x {
        assert NewerIn(s + {x}, x) == NewerIn(s, x) && NewerIn(Top(s) + {x}, x) == NewerIn(Top(s), x);
      }
    }
  }

  lemma NewestOfTop(s: set<Id>, x: Id)
    ensures |NewerIn(Top(s), x)| < KEEP <==> |NewerIn(s, x)| < KEEP
  {
    var n := NewerIn(s, x);
    assert NewerIn(Top(s), x) == Top(n) by {
      forall id | id in n ensures NewerIn(s, id) == NewerIn(n, id) {
      }
    }
    TopSize(n);
  }

  // ---- What the store holds ----

  type Content = Option<string>

  /** What each checkpoint would restore: for each file its content, or None for a file that was
      not there. */
  type Held = map<Id, map<string, Content>>

  function Holders(h: Held, path: string): set<Id> { set id | id in h && path in h[id] }

  predicate Drops(h: Held, path: string, id: Id) { id in h && path in h[id] && id !in Top(Holders(h, path)) }

  /** The file's entry is gone from the dropped checkpoints among done, and a checkpoint without
      entries is gone altogether. */
  function Pruned(h: Held, path: string, done: set<Id>): Held
  {
    map id | id in h && !(id in done && Drops(h, path, id) && h[id].Keys == {path}) ::
      if id in done && Drops(h, path, id) then h[id] - {path} else h[id]
  }

  function PruneAll(h: Held, paths: seq<string>): Held
    decreases |paths|
  {
    if paths == [] then h else PruneAll(Pruned(h, paths[0], h.Keys), paths[1..])
  }

  ghost predicate NoneEmpty(h: Held) { forall id | id in h :: h[id] != map[] }

  lemma PrunedHolders(h: Held, path: string, other: string)
    ensures Holders(Pruned(h, path, h.Keys), other) == if other == path then Top(Holders(h, path)) else Holders(h, other)
  {
    var p := Pruned(h, path, h.Keys);
    forall id ensures id in Holders(p, other) <==> id in (if other == path then Top(Holders(h, path)) else Holders(h, other)) {
      if id in h && other in h[id] && other != path && Drops(h, path, id) {
        assert other in h[id].Keys - {path};
      }
    }
  }

  lemma TopIsStable(s: set<Id>)
    ensures Top(Top(s)) == Top(s)
  {
    forall id | id in Top(s) ensures NewerIn(Top(s), id) == NewerIn(s, id) {
      TopIsUp(s, id);
    }
  }

  /** Pruning keeps, of each file pruned, the entries of its top; of every other file all
      entries; and never changes an entry that it keeps. */
  lemma {:induction false} PruneAllKeeps(h: Held, paths: seq<string>, path: string)
    ensures Holders(PruneAll(h, paths), path) == if path in paths then Top(Holders(h, path)) else Holders(h, path)
    ensures forall id | id in Holders(PruneAll(h, paths), path) :: id in h && path in h[id] && PruneAll(h, paths)[id][path] == h[id][path]
    decreases |paths|
  {
    if paths != [] {
      var p := Pruned(h, paths[0], h.Keys);
      PrunedHolders(h, paths[0], path);
      PruneAllKeeps(p, paths[1..], path);
      TopIsStable(Holders(h, path));
      assert path in paths <==> path == paths[0] || path in paths[1..];
      hide Top;
    }
  }

  lemma {:induction false} PruneAllNoneEmpty(h: Held, paths: seq<string>)
    requires NoneEmpty(h)
    ensures NoneEmpty(PruneAll(h, paths))
    decreases |paths|
  {
    if paths != [] {
      PrunedNoneEmpty(h, paths[0]);
      PruneAllNoneEmpty(Pruned(h, paths[0], h.Keys), paths[1..]);
    }
  }

  lemma PrunedNoneEmpty(h: Held, path: string)
    requires NoneEmpty(h)
    ensures NoneEmpty(Pruned(h, path, h.Keys))
  {
    hide Top;
    var p := Pruned(h, path, h.Keys);
    forall id | id in p ensures p[id] != map[] {
      if Drops(h, path, id) {
        var other :| other in h[id].Keys && other != path;
        assert other in p[id];
      }
    }
  }

  // ---- A history of saves ----

  /** One save: the process that made it, the clock then, and the files in the order given. */
  datatype Save = Save(process: nat, ts: nat, paths: seq<string>, contents: map<string, Content>)

  predicate Distinct(paths: seq<string>) { forall i, j | 0 <= i < j < |paths| :: paths[i] != paths[j] }

  predicate Sane(s: Save) { s.paths != [] && Distinct(s.paths) && s.contents.Keys == set p | p in s.paths }

  /** How many saves the process made: each process counts its own, from 0. */
  function CountOf(saves: seq<Save>, process: nat): nat
  {
    if saves == [] then 0
    else CountOf(saves[..|saves| - 1], process) + if saves[|saves| - 1].process == process then 1 else 0
  }

  function IdOf(saves: seq<Save>, k: nat): Id
    requires k < |saves|
  {
    Id(saves[k].ts, CountOf(saves[..k], saves[k].process))
  }

  lemma IdBefore(saves: seq<Save>, n: nat, k: nat)
    requires k < n <= |saves|
    ensures IdOf(saves[..n], k) == IdOf(saves, k)
  {
    assert saves[..n][..k] == saves[..k];
  }

  function After(saves: seq<Save>): Held
  {
    if saves == [] then map[]
    else
      var n := |saves| - 1;
      PruneAll(After(saves[..n])[IdOf(saves, n) := saves[n].contents], saves[n].paths)
  }

  /** No two checkpoints have one name. */
  ghost predicate DistinctIds(saves: seq<Save>)
  {
    forall j, k | 0 <= j < k < |saves| :: IdOf(saves, j) != IdOf(saves, k)
  }

  lemma DistinctBefore(saves: seq<Save>, n: nat)
    requires DistinctIds(saves) && n <= |saves|
    ensures DistinctIds(saves[..n])
  {
    forall j, k | 0 <= j < k < n ensures IdOf(saves[..n], j) != IdOf(saves[..n], k) {
      IdBefore(saves, n, j);
      IdBefore(saves, n, k);
    }
  }

  lemma {:induction false} CountAscends(saves: seq<Save>, j: nat, k: nat, process: nat)
    requires j < k <= |saves|
    ensures CountOf(saves[..j], process) <= CountOf(saves[..k], process)
    ensures saves[j].process == process ==> CountOf(saves[..j], process) < CountOf(saves[..k], process)
    decreases k
  {
    assert saves[..k][..k - 1] == saves[..k - 1] && saves[..k][k - 1] == saves[k - 1];
    if j < k - 1 {
      CountAscends(saves, j, k - 1, process);
    }
  }

  /** Only two processes can give one name, at one time and one count. */
  lemma OnlyProcessesRepeat(saves: seq<Save>, j: nat, k: nat)
    requires j < k < |saves| && IdOf(saves, j) == IdOf(saves, k)
    ensures saves[j].process != saves[k].process && saves[j].ts == saves[k].ts
  {
    CountAscends(saves, j, k, saves[k].process);
  }

  /** Every checkpoint ever made that had the file. */
  function SavedIds(saves: seq<Save>, path: string): set<Id>
  {
    set k | 0 <= k < |saves| && path in saves[k].contents :: IdOf(saves, k)
  }

  lemma SavedSnoc(saves: seq<Save>, path: string)
    requires saves != []
    ensures var n := |saves| - 1;
            SavedIds(saves, path) == SavedIds(saves[..n], path) + if path in saves[n].contents then {IdOf(saves, n)} else {}
  {
    var n := |saves| - 1;
    var l, r := SavedIds(saves, path), SavedIds(saves[..n], path) + if path in saves[n].contents then {IdOf(saves, n)} else {};
    hide IdOf;
    forall id ensures id in l <==> id in r {
      if id in l {
        var k :| 0 <= k < |saves| && path in saves[k].contents && id == IdOf(saves, k);
        if k < n {
          IdBefore(saves, n, k);
          assert saves[..n][k] == saves[k];
        }
      }
      if id in SavedIds(saves[..n], path) {
        var k :| 0 <= k < n && path in saves[..n][k].contents && id == IdOf(saves[..n], k);
        IdBefore(saves, n, k);
        assert saves[..n][k] == saves[k];
      }
    }
  }

  lemma NewIsNotSaved(saves: seq<Save>, path: string)
    requires saves != [] && DistinctIds(saves)
    ensures IdOf(saves, |saves| - 1) !in SavedIds(saves[..|saves| - 1], path)
  {
    var n := |saves| - 1;
    hide IdOf;
    forall k | 0 <= k < n ensures IdOf(saves[..n], k) != IdOf(saves, n) {
      IdBefore(saves, n, k);
    }
  }

  /** The checkpoint is save k, and its entry for the file is what was saved. */
  ghost predicate EntryFrom(saves: seq<Save>, h: Held, path: string, id: Id, k: nat)
  {
    && k < |saves| && id == IdOf(saves, k)
    && path in saves[k].contents && id in h && path in h[id] && h[id][path] == saves[k].contents[path]
  }

  ghost predicate EntryAsSaved(saves: seq<Save>, h: Held, path: string, id: Id)
  {
    exists k :: EntryFrom(saves, h, path, id, k)
  }

  ghost predicate EntriesAsSaved(saves: seq<Save>, h: Held, path: string)
  {
    forall id | id in Holders(h, path) :: EntryAsSaved(saves, h, path, id)
  }

  /** Whatever the clock did, and whichever processes saved in turn, as long as no two
      checkpoints have one name: each file is held by exactly the hundred checkpoints that are
      greatest by time and counter among those that had it, each entry as it was saved. */
  lemma {:induction false} HeldIsTop(saves: seq<Save>, path: string)
    requires (forall k | 0 <= k < |saves| :: Sane(saves[k])) && DistinctIds(saves)
    ensures Holders(After(saves), path) == Top(SavedIds(saves, path))
    ensures EntriesAsSaved(saves, After(saves), path)
    decreases |saves|
  {
    if saves == [] {
      assert SavedIds(saves, path) == {};
    } else {
      var n := |saves| - 1;
      var init, last := saves[..n], saves[n];
      var id := IdOf(saves, n);
      DistinctBefore(saves, n);
      HeldIsTop(init, path);
      SavedSnoc(saves, path);
      NewIsNotSaved(saves, path);
      assert path in last.paths <==> path in last.contents by {
        assert path in last.contents.Keys <==> path in (set p | p in last.paths);
      }
      TopIsUnder(SavedIds(init, path));
      assert id !in Holders(After(init), path);
      assert path !in last.contents ==> SavedIds(saves, path) == SavedIds(init, path);
      var h, h' := After(init), After(saves);
      assert h' == PruneAll(h[id := last.contents], last.paths);
      hide Top, PruneAll, SavedIds, After, EntriesAsSaved;
      NewSave(h, id, last, path);
      if path in last.contents {
        TopOfTop(SavedIds(init, path), id);
      }
      EntriesStep(saves, h, h', path);
    }
  }

  lemma TopIsUnder(s: set<Id>)
    ensures Top(s) <= s
  {
  }

  lemma EntriesStep(saves: seq<Save>, h: Held, h': Held, path: string)
    requires saves != [] && EntriesAsSaved(saves[..|saves| - 1], h, path)
    requires forall x | x in Holders(h', path) ::
               if x == IdOf(saves, |saves| - 1)
               then path in saves[|saves| - 1].contents && h'[x][path] == saves[|saves| - 1].contents[path]
               else x in h && path in h[x] && h'[x][path] == h[x][path]
    ensures EntriesAsSaved(saves, h', path)
  {
    var n := |saves| - 1;
    hide IdOf;
    forall x | x in Holders(h', path) ensures EntryAsSaved(saves, h', path, x) {
      if x == IdOf(saves, n) {
        assert EntryFrom(saves, h', path, x, n);
      } else {
        assert x in Holders(h, path);
        assert EntryAsSaved(saves[..n], h, path, x);
        var k :| EntryFrom(saves[..n], h, path, x, k);
        IdBefore(saves, n, k);
        assert EntryFrom(saves, h', path, x, k);
      }
    }
  }

  lemma NewSave(h: Held, id: Id, s: Save, path: string)
    requires Sane(s) && id !in Holders(h, path)
    ensures var h' := PruneAll(h[id := s.contents], s.paths);
            && Holders(h', path) == (if path in s.paths then Top(Holders(h, path) + {id}) else Holders(h, path))
            && forall x | x in Holders(h', path) ::
                 if x == id then path in s.contents && h'[x][path] == s.contents[path]
                 else x in h && path in h[x] && h'[x][path] == h[x][path]
  {
    hide Top, PruneAll;
    var g := h[id := s.contents];
    PruneAllKeeps(g, s.paths, path);
    assert path in s.contents.Keys <==> path in s.paths;
    assert Holders(g, path) == Holders(h, path) + if path in s.paths then {id} else {};
  }

  /** A checkpoint that lost its last entry is gone. */
  lemma {:induction false} NoneIsEmpty(saves: seq<Save>)
    requires forall k | 0 <= k < |saves| :: Sane(saves[k])
    ensures NoneEmpty(After(saves))
    decreases |saves|
  {
    if saves != [] {
      var n := |saves| - 1;
      NoneIsEmpty(saves[..n]);
      assert Sane(saves[n]);
      assert saves[n].paths[0] in saves[n].contents.Keys;
      PruneAllNoneEmpty(After(saves[..n])[IdOf(saves, n) := saves[n].contents], saves[n].paths);
    }
  }

  /** The clock does not go back, and no two processes save at one time. */
  predicate ClockForward(saves: seq<Save>)
  {
    forall j, k | 0 <= j < k < |saves| ::
      saves[j].ts < saves[k].ts || (saves[j].ts == saves[k].ts && saves[j].process == saves[k].process)
  }

  lemma LaterIsNewer(saves: seq<Save>, j: nat, k: nat)
    requires ClockForward(saves) && j < k < |saves|
    ensures Newer(IdOf(saves, k), IdOf(saves, j)) && !Newer(IdOf(saves, j), IdOf(saves, k))
  {
    CountAscends(saves, j, k, saves[k].process);
  }

  /** How many saves after k had the file. */
  function LaterSaves(saves: seq<Save>, path: string, k: nat): set<nat>
  {
    set j: nat | k < j < |saves| && path in saves[j].contents
  }

  function LaterIds(saves: seq<Save>, path: string, k: nat): set<Id>
  {
    set j | j in LaterSaves(saves, path, k) :: IdOf(saves, j)
  }

  lemma NewerAreLater(saves: seq<Save>, path: string, k: nat, x: Id)
    requires ClockForward(saves) && k < |saves|
    ensures x in SavedIds(saves, path) && Newer(x, IdOf(saves, k)) ==> x in LaterIds(saves, path, k)
  {
    hide IdOf, Newer, ClockForward;
    if x in SavedIds(saves, path) {
      var j :| 0 <= j < |saves| && path in saves[j].contents && x == IdOf(saves, j);
      if j < k {
        LaterIsNewer(saves, j, k);
      } else if j == k {
        NotNewerThanItself(x);
      } else {
        assert j in LaterSaves(saves, path, k);
      }
    }
  }

  lemma LaterAreNewer(saves: seq<Save>, path: string, k: nat, x: Id)
    requires ClockForward(saves) && k < |saves| && x in LaterIds(saves, path, k)
    ensures x in SavedIds(saves, path) && Newer(x, IdOf(saves, k))
  {
    hide IdOf, Newer, ClockForward;
    var j :| j in LaterSaves(saves, path, k) && x == IdOf(saves, j);
    LaterIsNewer(saves, k, j);
  }

  lemma NewerIsLater(saves: seq<Save>, path: string, k: nat)
    requires ClockForward(saves) && k < |saves|
    ensures NewerIn(SavedIds(saves, path), IdOf(saves, k)) == LaterIds(saves, path, k)
  {
    hide IdOf, Newer, ClockForward, SavedIds, LaterIds;
    forall x ensures x in NewerIn(SavedIds(saves, path), IdOf(saves, k)) <==> x in LaterIds(saves, path, k) {
      NewerAreLater(saves, path, k, x);
      if x in LaterIds(saves, path, k) {
        LaterAreNewer(saves, path, k, x);
      }
    }
  }

  lemma InTop(s: set<Id>, id: Id)
    requires id in s
    ensures id in Top(s) <==> |NewerIn(s, id)| < KEEP
  {
  }

  lemma IsSaved(saves: seq<Save>, path: string, k: nat)
    requires k < |saves| && path in saves[k].contents
    ensures IdOf(saves, k) in SavedIds(saves, path)
  {
    hide IdOf;
  }

  /** While the clock does not go back: a checkpoint's entry is held exactly when fewer than a
      hundred later saves had the file. */
  lemma NewestAreHeld(saves: seq<Save>, path: string, k: nat)
    requires (forall k | 0 <= k < |saves| :: Sane(saves[k])) && ClockForward(saves)
    requires k < |saves| && path in saves[k].contents
    ensures IdOf(saves, k) in Holders(After(saves), path) <==> |LaterSaves(saves, path, k)| < KEEP
  {
    hide *;
    ForwardIsDistinct(saves);
    HeldIsTop(saves, path);
    NewerIsLater(saves, path, k);
    IsSaved(saves, path, k);
    InTop(SavedIds(saves, path), IdOf(saves, k));
    LaterWithin(saves, path, k);
    SameSize(LaterSaves(saves, path, k), LaterIds(saves, path, k), saves);
  }

  lemma LaterWithin(saves: seq<Save>, path: string, k: nat)
    ensures forall j | j in LaterSaves(saves, path, k) :: j < |saves|
    ensures LaterIds(saves, path, k) == set j | j in LaterSaves(saves, path, k) :: IdOf(saves, j)
  {
  }

  lemma NotNewerThanItself(id: Id)
    ensures !Newer(id, id)
  {
  }

  lemma ForwardIsDistinct(saves: seq<Save>)
    requires ClockForward(saves)
    ensures DistinctIds(saves)
  {
    hide IdOf, ClockForward;
    forall j, k | 0 <= j < k < |saves| ensures IdOf(saves, j) != IdOf(saves, k) {
      LaterIsNewer(saves, j, k);
      NotNewerThanItself(IdOf(saves, j));
    }
  }

  lemma {:induction false} SameSize(later: set<nat>, ids: set<Id>, saves: seq<Save>)
    requires (forall j | j in later :: j < |saves|) && ClockForward(saves) && ids == set j | j in later :: IdOf(saves, j)
    ensures |ids| == |later|
    decreases |later|
  {
    ForwardIsDistinct(saves);
    hide IdOf, ClockForward;
    if later != {} {
      var j :| j in later;
      var rest := later - {j};
      var less := set i | i in rest :: IdOf(saves, i);
      SameSize(rest, less, saves);
      assert ids == less + {IdOf(saves, j)};
      forall i | i in rest ensures IdOf(saves, i) != IdOf(saves, j) {
        assert i < j ==> IdOf(saves, i) != IdOf(saves, j);
        assert j < i ==> IdOf(saves, j) != IdOf(saves, i);
      }
      assert IdOf(saves, j) !in less;
    }
  }

  const ONE_NAME: seq<Save> := [Save(0, 5, ["a"], map["a" := None]), Save(1, 5, ["b"], map["b" := None])]

  /** Two processes at one time and count give one name: the later save takes the checkpoint of
      the earlier one away. */
  lemma RepeatedNameReplaces()
    ensures (forall k | 0 <= k < |ONE_NAME| :: Sane(ONE_NAME[k])) && !DistinctIds(ONE_NAME)
    ensures SavedIds(ONE_NAME, "a") == Top(SavedIds(ONE_NAME, "a")) == {Id(5, 0)} && Holders(After(ONE_NAME), "a") == {}
  {
    OneNameIds();
    OneNameSaved();
    OneNameHeld();
    OneIsTop(Id(5, 0));
    hide SavedIds, Top, After, Holders;
    assert IdOf(ONE_NAME, 0) == IdOf(ONE_NAME, 1);
  }

  lemma OneNameIds()
    ensures |ONE_NAME| == 2 && IdOf(ONE_NAME, 0) == IdOf(ONE_NAME, 1) == Id(5, 0) && IdOf(ONE_NAME[..1], 0) == Id(5, 0)
  {
    var first := ONE_NAME[..1];
    assert first == [ONE_NAME[0]] && first[..0] == [] && ONE_NAME[..0] == [];
    assert CountOf(first, 1) == 0;
  }

  lemma OneNameSaved()
    ensures SavedIds(ONE_NAME, "a") == {Id(5, 0)}
  {
    OneNameIds();
    SavedSnoc(ONE_NAME, "a");
    SavedSnoc(ONE_NAME[..1], "a");
    assert SavedIds(ONE_NAME[..1][..0], "a") == {};
  }

  lemma OneNameHeld()
    ensures Holders(After(ONE_NAME), "a") == {}
  {
    OneNameIds();
    var first := ONE_NAME[..1];
    assert first == [ONE_NAME[0]] && first[..0] == [];
    OnlyHeld();
    hide IdOf, PruneAll;
    var g := After(first)[Id(5, 0) := map["b" := None]];
    assert After(ONE_NAME) == PruneAll(g, ["b"]);
    PruneAllKeeps(g, ["b"], "a");
  }

  lemma OneIsTop(id: Id)
    ensures Top({id}) == {id}
  {
    assert NewerIn({id}, id) == {};
  }

  lemma OnlyHeld()
    ensures After([Save(0, 5, ["a"], map["a" := None])]).Keys <= {Id(5, 0)}
  {
  }

  // ---- Files on disk ----

  /** The name of the i-th stored file: its number, with zeros in front up to four digits. */
  function Stored(i: nat): string
  {
    var d := Decimal(i);
    if |d| >= 4 then d else if |d| == 3 then "0" + d else if |d| == 2 then "00" + d else "000" + d
  }

  /** No two files of a checkpoint are stored under one name. */
  lemma StoredIsInjective(i: nat, j: nat)
    requires Stored(i) == Stored(j)
    ensures i == j
  {
    StoredValue(i);
    StoredValue(j);
  }

  lemma StoredValue(i: nat)
    ensures ValueOf(Stored(i)) == i
  {
    var d := Decimal(i);
    DecimalValue(i);
    ZeroInFront(d);
    ZeroInFront("0" + d);
    ZeroInFront("0" + ("0" + d));
    assert "00" + d == "0" + ("0" + d) && "000" + d == "0" + ("0" + ("0" + d));
    hide ValueOf, Decimal;
  }

  /** The name is the number in decimal, with as many zeros in front as make it four digits long if
      it is shorter. */
  lemma StoredPads(i: nat)
    ensures var d, s := Decimal(i), Stored(i);
            && |s| == (if |d| < 4 then 4 else |d|) && s[|s| - |d|..] == d
            && forall k | 0 <= k < |s| - |d| :: s[k] == '0'
  {
    DecimalValue(i);
    assert Decimal(i) != "";
  }

  /** A manifest gives each file the name it is stored under, or nothing if it was not there. */
  type Manifest = map<string, Option<string>>

  /** manifest is None when it is missing or unreadable. */
  datatype Dir = Dir(manifest: Option<Manifest>, files: map<string, string>)

  type Disk = map<Id, Dir>

  /** Every file of the manifest is there, and no two share a stored one. */
  predicate DirOk(d: Dir)
  {
    d.manifest.Some? ==>
      && d.manifest.value != map[]
      && (forall p | p in d.manifest.value && d.manifest.value[p].Some? :: d.manifest.value[p].value in d.files)
      && (forall p, q | p in d.manifest.value && q in d.manifest.value && p != q && d.manifest.value[p].Some? ::
            d.manifest.value[p] != d.manifest.value[q])
  }

  predicate DiskOk(disk: Disk) { forall id | id in disk :: DirOk(disk[id]) }

  function ContentsOf(d: Dir): map<string, Content>
    requires DirOk(d) && d.manifest.Some?
  {
    map p | p in d.manifest.value :: if d.manifest.value[p].None? then None else Some(d.files[d.manifest.value[p].value])
  }

  function HeldOn(disk: Disk): Held
    requires DiskOk(disk)
  {
    map id | id in disk && disk[id].manifest.Some? :: ContentsOf(disk[id])
  }

  /** The ids from the newest to the oldest. */
  ghost predicate Listing(ids: seq<Id>, disk: Disk)
  {
    && (forall i, j | 0 <= i < j < |ids| :: Newer(ids[i], ids[j]))
    && (forall id :: id in ids <==> id in disk)
  }

  // ---- One file's entry taken out of one directory ----

  function WithoutEntry(d: Dir, path: string): Dir
    requires d.manifest.Some? && path in d.manifest.value
  {
    var m := d.manifest.value;
    Dir(Some(m - {path}), if m[path].Some? then d.files - {m[path].value} else d.files)
  }

  lemma WithoutEntryIs(d: Dir, path: string)
    requires DirOk(d) && d.manifest.Some? && path in d.manifest.value && d.manifest.value.Keys != {path}
    ensures DirOk(WithoutEntry(d, path)) && ContentsOf(WithoutEntry(d, path)) == ContentsOf(d) - {path}
  {
    var m := d.manifest.value;
    var e := WithoutEntry(d, path);
    var other :| other in m.Keys && other != path;
    assert other in e.manifest.value;
    forall p | p in e.manifest.value && e.manifest.value[p].Some? ensures e.manifest.value[p].value in e.files {
      assert m[p] != m[path];
    }
  }

  /** The disk after a checkpoint lost its entry for the file. */
  function Dropped(disk: Disk, id: Id, path: string): Disk
    requires id in disk && disk[id].manifest.Some? && path in disk[id].manifest.value
  {
    var d := WithoutEntry(disk[id], path);
    if d.manifest.value != map[] then disk[id := d]
    else if d.files == map[] then disk - {id}
    else disk[id := Dir(None, d.files)]
  }

  lemma DroppedHeld(disk: Disk, id: Id, path: string)
    requires DiskOk(disk) && id in disk && disk[id].manifest.Some? && path in disk[id].manifest.value
    ensures var disk' := Dropped(disk, id, path);
            && DiskOk(disk') && disk'.Keys <= disk.Keys
            && HeldOn(disk') == (if HeldOn(disk)[id].Keys == {path} then HeldOn(disk) - {id}
                                 else HeldOn(disk)[id := HeldOn(disk)[id] - {path}])
            && forall x | x in disk && x != id :: x in disk' && disk'[x] == disk[x]
  {
    var m := disk[id].manifest.value;
    var d := WithoutEntry(disk[id], path);
    assert ContentsOf(disk[id]).Keys == m.Keys;
    if m.Keys != {path} {
      WithoutEntryIs(disk[id], path);
      var other :| other in m.Keys && other != path;
      assert other in m - {path};
      hide ContentsOf, DirOk, WithoutEntry;
      Replaced(disk, id, d);
    } else {
      assert (m - {path}).Keys == {};
      assert m - {path} == map[];
      hide ContentsOf, WithoutEntry;
      Gone(disk, id, d.files);
    }
  }

  lemma Replaced(disk: Disk, id: Id, d: Dir)
    requires DiskOk(disk) && DirOk(d) && d.manifest.Some?
    ensures DiskOk(disk[id := d]) && HeldOn(disk[id := d]) == HeldOn(disk)[id := ContentsOf(d)]
  {
    hide ContentsOf, DirOk;
  }

  lemma Gone(disk: Disk, id: Id, files: map<string, string>)
    requires DiskOk(disk) && id in disk
    ensures DiskOk(disk - {id}) && HeldOn(disk - {id}) == HeldOn(disk) - {id}
    ensures DiskOk(disk[id := Dir(None, files)]) && HeldOn(disk[id := Dir(None, files)]) == HeldOn(disk) - {id}
  {
    hide ContentsOf;
    assert DirOk(Dir(None, files));
    hide DirOk;
  }

  // ---- Nothing is left over ----

  function StoredNames(m: Manifest): set<string> { set p | p in m && m[p].Some? :: m[p].value }

  /** The directory has a manifest, and exactly the stored files that it names. */
  predicate TightDir(d: Dir) { d.manifest.Some? && d.files.Keys == StoredNames(d.manifest.value) }

  predicate Tight(disk: Disk) { forall id | id in disk :: TightDir(disk[id]) }

  lemma NamesMore(m: Manifest, path: string, stored: string)
    requires path !in m
    ensures StoredNames(m[path := Some(stored)]) == StoredNames(m) + {stored} && StoredNames(m[path := None]) == StoredNames(m)
  {
    var more, same := m[path := Some(stored)], m[path := None];
    forall x ensures x in StoredNames(more) <==> x in StoredNames(m) + {stored} {
      if x in StoredNames(m) {
        var p :| p in m && m[p] == Some(x);
        assert p in more && more[p] == Some(x);
      }
      assert path in more && more[path] == Some(stored);
    }
    forall x ensures x in StoredNames(same) <==> x in StoredNames(m) {
      if x in StoredNames(m) {
        var p :| p in m && m[p] == Some(x);
        assert p in same && same[p] == Some(x);
      }
    }
  }

  lemma NamesLess(d: Dir, path: string)
    requires DirOk(d) && TightDir(d) && path in d.manifest.value
    ensures TightDir(WithoutEntry(d, path))
  {
    var m := d.manifest.value;
    var less := m - {path};
    forall x ensures x in StoredNames(less) <==> x in StoredNames(m) && m[path] != Some(x) {
      if x in StoredNames(m) && m[path] != Some(x) {
        var p :| p in m && m[p] == Some(x);
        assert p in less && less[p] == Some(x);
      }
      if x in StoredNames(less) {
        var p :| p in less && less[p] == Some(x);
        assert p in m && p != path && m[p] != m[path];
      }
    }
  }

  /** Taking entries out leaves no file that no manifest names, and no directory without one. */
  lemma DroppedTight(disk: Disk, id: Id, path: string)
    requires DiskOk(disk) && Tight(disk) && id in disk && path in disk[id].manifest.value
    ensures Tight(Dropped(disk, id, path))
  {
    var d := WithoutEntry(disk[id], path);
    assert DirOk(disk[id]) && TightDir(disk[id]);
    NamesLess(disk[id], path);
    assert d.manifest.value == map[] ==> StoredNames(d.manifest.value) == {};
    assert d.files.Keys == {} ==> d.files == map[];
    hide WithoutEntry, StoredNames, DirOk;
  }

  lemma TightWith(disk: Disk, id: Id, d: Dir)
    requires Tight(disk) && TightDir(d)
    ensures Tight(disk[id := d])
  {
    hide TightDir;
  }

  lemma {:induction false} PruneAllShrinks(h: Held, paths: seq<string>)
    ensures PruneAll(h, paths).Keys <= h.Keys
    decreases |paths|
  {
    if paths != [] {
      PruneAllShrinks(Pruned(h, paths[0], h.Keys), paths[1..]);
    }
  }

  /** Only checkpoints that were saved are held. */
  lemma {:induction false} HeldWereSaved(saves: seq<Save>, id: Id)
    requires id in After(saves)
    ensures exists j :: 0 <= j < |saves| && IdOf(saves, j) == id
    decreases |saves|
  {
    var n := |saves| - 1;
    hide IdOf, PruneAll;
    PruneAllShrinks(After(saves[..n])[IdOf(saves, n) := saves[n].contents], saves[n].paths);
    if id != IdOf(saves, n) {
      HeldWereSaved(saves[..n], id);
      var j :| 0 <= j < n && IdOf(saves[..n], j) == id;
      IdBefore(saves, n, j);
    }
  }

  lemma TightIsHeld(disk: Disk, id: Id)
    requires DiskOk(disk) && Tight(disk) && id in disk
    ensures id in HeldOn(disk)
  {
    hide ContentsOf, DirOk;
    assert TightDir(disk[id]);
  }

  /** A name that no save before had is free. */
  lemma NewIdIsFree(disk: Disk, saves: seq<Save>, k: nat)
    requires k < |saves| && DistinctIds(saves)
    requires DiskOk(disk) && Tight(disk) && HeldOn(disk) == After(saves[..k])
    ensures IdOf(saves, k) !in disk
  {
    hide IdOf, After, HeldOn, Tight, DirOk;
    if IdOf(saves, k) in disk {
      TightIsHeld(disk, IdOf(saves, k));
      HeldWereSaved(saves[..k], IdOf(saves, k));
      var j :| 0 <= j < k && IdOf(saves[..k], j) == IdOf(saves, k);
      IdBefore(saves, k, j);
      assert false;
    }
  }

  // ---- Walking the checkpoints ----

  function SetOf(ids: seq<Id>, n: nat): set<Id>
    requires n <= |ids|
  {
    set k | 0 <= k < n :: ids[k]
  }

  ghost predicate PrunedSoFar(before: Disk, disk: Disk, path: string, ids: seq<Id>, i: nat, seen: nat)
  {
    && i <= |ids| && DiskOk(before) && DiskOk(disk) && Listing(ids, before) && disk.Keys <= before.Keys
    && HeldOn(disk) == Pruned(HeldOn(before), path, SetOf(ids, i))
    && (forall k | i <= k < |ids| :: ids[k] in disk && disk[ids[k]] == before[ids[k]])
    && seen == |Holders(HeldOn(before), path) * SetOf(ids, i)|
  }

  lemma PruneBegins(disk: Disk, path: string, ids: seq<Id>)
    requires DiskOk(disk) && Listing(ids, disk)
    ensures PrunedSoFar(disk, disk, path, ids, 0, 0)
  {
    assert SetOf(ids, 0) == {};
    assert forall k | 0 <= k < |ids| :: ids[k] in ids;
    PrunedNone(HeldOn(disk), path);
    hide HeldOn, Pruned, Holders, DirOk;
    assert Holders(HeldOn(disk), path) * {} == {};
  }

  lemma PrunedNone(h: Held, path: string)
    ensures Pruned(h, path, {}) == h
  {
  }

  /** The ids walked so far are those newer than the next one. */
  lemma WalkedIsNewer(h: Held, path: string, ids: seq<Id>, i: nat)
    requires i < |ids| && (forall a, b | 0 <= a < b < |ids| :: Newer(ids[a], ids[b]))
    requires forall id | id in h :: id in ids
    ensures NewerIn(Holders(h, path), ids[i]) == Holders(h, path) * SetOf(ids, i)
    ensures SetOf(ids, i + 1) == SetOf(ids, i) + {ids[i]} && ids[i] !in SetOf(ids, i)
  {
    forall x | x in Holders(h, path) ensures Newer(x, ids[i]) <==> x in SetOf(ids, i) {
      var k :| 0 <= k < |ids| && ids[k] == x;
      if k > i {
        assert Newer(ids[i], ids[k]);
      }
    }
  }

  lemma PrunedMore(h: Held, path: string, done: set<Id>, id: Id)
    requires id !in done
    ensures Pruned(h, path, done + {id}) ==
            if !Drops(h, path, id) then Pruned(h, path, done)
            else if h[id].Keys == {path} then Pruned(h, path, done) - {id}
            else Pruned(h, path, done)[id := h[id] - {path}]
    ensures id in h ==> id in Pruned(h, path, done) && Pruned(h, path, done)[id] == h[id]
  {
    hide Top;
  }

  lemma HeldAt(disk: Disk, id: Id, path: string)
    requires DiskOk(disk) && id in disk
    ensures id in HeldOn(disk) <==> disk[id].manifest.Some?
    ensures id in HeldOn(disk) ==> HeldOn(disk)[id] == ContentsOf(disk[id])
    ensures id in Holders(HeldOn(disk), path) <==> disk[id].manifest.Some? && path in disk[id].manifest.value
  {
  }

  lemma HeldIsListed(ids: seq<Id>, disk: Disk)
    requires DiskOk(disk) && Listing(ids, disk)
    ensures forall id | id in HeldOn(disk) :: id in ids
  {
  }

  lemma ListedIs(ids: seq<Id>, disk: Disk, i: nat)
    requires Listing(ids, disk) && i < |ids|
    ensures ids[i] in disk && (forall a, b | 0 <= a < b < |ids| :: Newer(ids[a], ids[b]))
    ensures forall k | 0 <= k < |ids| && k != i :: ids[k] != ids[i]
  {
    assert ids[i] in ids;
    forall k | 0 <= k < |ids| && k != i ensures ids[k] != ids[i] {
      if k < i {
        assert Newer(ids[k], ids[i]);
      } else {
        assert Newer(ids[i], ids[k]);
      }
    }
  }

  /** The next id has the file's entry or not; if it has, and a hundred newer ones have it too,
      then it is to lose it. */
  lemma PruneLook(before: Disk, disk: Disk, path: string, ids: seq<Id>, i: nat, seen: nat)
    requires PrunedSoFar(before, disk, path, ids, i, seen) && i < |ids|
    ensures ids[i] in disk && DiskOk(disk)
    ensures disk[ids[i]].manifest.None? || path !in disk[ids[i]].manifest.value ==>
              PrunedSoFar(before, disk, path, ids, i + 1, seen)
    ensures disk[ids[i]].manifest.Some? && path in disk[ids[i]].manifest.value ==>
              if seen + 1 <= KEEP then PrunedSoFar(before, disk, path, ids, i + 1, seen + 1)
              else PrunedSoFar(before, Dropped(disk, ids[i], path), path, ids, i + 1, seen + 1)
                   && DiskOk(Dropped(disk, ids[i], path)) && Dropped(disk, ids[i], path).Keys <= disk.Keys
  {
    hide *;
    var id := ids[i];
    SoFarSays(before, disk, path, ids, i, seen);
    var h := HeldOn(before);
    ListedIs(ids, before, i);
    HeldIsListed(ids, before);
    WalkedIsNewer(h, path, ids, i);
    PrunedMore(h, path, SetOf(ids, i), id);
    HeldAt(before, id, path);
    HeldAt(disk, id, path);
    DropsIs(h, path, id);
    OneMore(Holders(h, path), SetOf(ids, i), id);
    if disk[id].manifest.None? || path !in disk[id].manifest.value {
      SaySoFar(before, disk, path, ids, i + 1, seen);
    } else if seen + 1 <= KEEP {
      SaySoFar(before, disk, path, ids, i + 1, seen + 1);
    } else {
      DroppedHeld(disk, id, path);
      DropElsewhere(before, disk, Dropped(disk, id, path), ids, i);
      SaySoFar(before, Dropped(disk, id, path), path, ids, i + 1, seen + 1);
    }
  }

  lemma OneMore(holders: set<Id>, done: set<Id>, id: Id)
    requires id !in done
    ensures holders * (done + {id}) == if id in holders then holders * done + {id} else holders * done
    ensures id !in holders * done
  {
  }

  lemma DropElsewhere(before: Disk, disk: Disk, disk': Disk, ids: seq<Id>, i: nat)
    requires i < |ids| && forall k | i <= k < |ids| :: ids[k] in disk && ids[k] in before && disk[ids[k]] == before[ids[k]]
    requires forall k | 0 <= k < |ids| && k != i :: ids[k] != ids[i]
    requires forall x | x in disk && x != ids[i] :: x in disk' && disk'[x] == disk[x]
    ensures forall k | i + 1 <= k < |ids| :: ids[k] in disk' && disk'[ids[k]] == before[ids[k]]
  {
  }

  lemma SoFarSays(before: Disk, disk: Disk, path: string, ids: seq<Id>, i: nat, seen: nat)
    requires PrunedSoFar(before, disk, path, ids, i, seen)
    ensures i <= |ids| && DiskOk(before) && DiskOk(disk) && Listing(ids, before) && disk.Keys <= before.Keys
    ensures HeldOn(disk) == Pruned(HeldOn(before), path, SetOf(ids, i))
    ensures forall k | i <= k < |ids| :: ids[k] in disk && ids[k] in before && disk[ids[k]] == before[ids[k]]
    ensures seen == |Holders(HeldOn(before), path) * SetOf(ids, i)|
  {
  }

  lemma SaySoFar(before: Disk, disk: Disk, path: string, ids: seq<Id>, i: nat, seen: nat)
    requires i <= |ids| && DiskOk(before) && DiskOk(disk) && Listing(ids, before) && disk.Keys <= before.Keys
    requires HeldOn(disk) == Pruned(HeldOn(before), path, SetOf(ids, i))
    requires forall k | i <= k < |ids| :: ids[k] in disk && ids[k] in before && disk[ids[k]] == before[ids[k]]
    requires seen == |Holders(HeldOn(before), path) * SetOf(ids, i)|
    ensures PrunedSoFar(before, disk, path, ids, i, seen)
  {
    hide HeldOn, Pruned, SetOf, Holders, Listing, DirOk;
  }

  lemma DropsIs(h: Held, path: string, id: Id)
    ensures Drops(h, path, id) <==> id in Holders(h, path) && |NewerIn(Holders(h, path), id)| >= KEEP
  {
  }

  lemma PruneDone(before: Disk, disk: Disk, path: string, ids: seq<Id>, seen: nat)
    requires PrunedSoFar(before, disk, path, ids, |ids|, seen)
    ensures DiskOk(before) && DiskOk(disk) && disk.Keys <= before.Keys
    ensures HeldOn(disk) == Pruned(HeldOn(before), path, HeldOn(before).Keys)
  {
    hide *;
    SoFarSays(before, disk, path, ids, |ids|, seen);
    HeldIsListed(ids, before);
    AllSet(ids);
    PrunedWithin(HeldOn(before), path, SetOf(ids, |ids|));
  }

  lemma AllSet(ids: seq<Id>)
    ensures forall id | id in ids :: id in SetOf(ids, |ids|)
  {
  }

  lemma PrunedWithin(h: Held, path: string, done: set<Id>)
    requires h.Keys <= done
    ensures Pruned(h, path, done) == Pruned(h, path, h.Keys)
  {
    hide Top;
  }

  // ---- Writing a checkpoint ----

  /** The first n files are stored, under their numbers, and named in the manifest. */
  ghost predicate Written(paths: seq<string>, contents: map<string, Content>, m: Manifest, files: map<string, string>, n: nat)
  {
    && n <= |paths| && m.Keys == (set k | 0 <= k < n :: paths[k])
    && forall k | 0 <= k < n :: FileWritten(paths, contents, m, files, k)
  }

  ghost predicate FileWritten(paths: seq<string>, contents: map<string, Content>, m: Manifest, files: map<string, string>, k: nat)
    requires k < |paths|
  {
    && paths[k] in contents && paths[k] in m
    && if contents[paths[k]].None? then m[paths[k]] == None
       else m[paths[k]] == Some(Stored(k)) && Stored(k) in files && files[Stored(k)] == contents[paths[k]].value
  }

  lemma WriteOne(paths: seq<string>, contents: map<string, Content>, m: Manifest, files: map<string, string>, n: nat)
    requires Written(paths, contents, m, files, n) && n < |paths| && Distinct(paths) && paths[n] in contents
    ensures var c := contents[paths[n]];
            if c.None? then Written(paths, contents, m[paths[n] := None], files, n + 1)
            else Written(paths, contents, m[paths[n] := Some(Stored(n))], files[Stored(n) := c.value], n + 1)
  {
    var c := contents[paths[n]];
    var m' := if c.None? then m[paths[n] := None] else m[paths[n] := Some(Stored(n))];
    var files' := if c.None? then files else files[Stored(n) := c.value];
    hide Stored;
    forall k | 0 <= k < n + 1 ensures FileWritten(paths, contents, m', files', k) {
      if k < n {
        assert FileWritten(paths, contents, m, files, k);
        if Stored(k) == Stored(n) {
          StoredIsInjective(k, n);
        }
      }
    }
  }

  lemma WrittenIs(paths: seq<string>, contents: map<string, Content>, m: Manifest, files: map<string, string>)
    requires Written(paths, contents, m, files, |paths|) && paths != [] && contents.Keys == set p | p in paths
    ensures DirOk(Dir(Some(m), files)) && ContentsOf(Dir(Some(m), files)) == contents
  {
    hide Stored;
    assert paths[0] in m.Keys;
    assert m != map[];
    forall p | p in m ensures exists k :: 0 <= k < |paths| && paths[k] == p && FileWritten(paths, contents, m, files, k) {
      var k :| 0 <= k < |paths| && paths[k] == p;
      assert FileWritten(paths, contents, m, files, k);
    }
    forall p, q | p in m && q in m && p != q && m[p].Some? ensures m[p] != m[q] {
      var j :| 0 <= j < |paths| && paths[j] == p && FileWritten(paths, contents, m, files, j);
      var k :| 0 <= k < |paths| && paths[k] == q && FileWritten(paths, contents, m, files, k);
      if Stored(j) == Stored(k) {
        StoredIsInjective(j, k);
      }
    }
    assert m.Keys == contents.Keys by {
      forall p ensures p in m.Keys <==> p in (set x | x in paths) {
      }
    }
  }

  // ---- The store ----

  lemma InsertedOrder(ids: seq<Id>, id: Id, i: nat)
    requires (forall i, j | 0 <= i < j < |ids| :: Newer(ids[i], ids[j])) && id !in ids && i <= |ids|
    requires (forall k | 0 <= k < i :: Newer(ids[k], id)) && (i < |ids| ==> !Newer(ids[i], id))
    ensures var more := ids[..i] + [id] + ids[i..]; forall i, j | 0 <= i < j < |more| :: Newer(more[i], more[j])
  {
    if i < |ids| {
      assert ids[i] in ids;
      assert Newer(id, ids[i]);
    }
  }

  lemma InsertedElements(ids: seq<Id>, id: Id, i: nat)
    requires i <= |ids|
    ensures forall x :: x in ids[..i] + [id] + ids[i..] <==> x in ids || x == id
  {
    assert ids == ids[..i] + ids[i..];
  }

  /** The directory that all processes store their checkpoints in. */
  class Root {
    var disk: Disk

    constructor ()
      ensures disk == map[]
    {
      disk := map[];
    }
  }

  /** The store of one process, on a directory that may hold checkpoints of others. */
  class CheckpointStore {
    const root: Root
    var checkpointSeq: nat

    ghost predicate Valid()
      reads root
    {
      DiskOk(root.disk)
    }

    constructor (root: Root)
      ensures this.root == root && checkpointSeq == 0
    {
      this.root, checkpointSeq := root, 0;
    }

    method List() returns (ids: seq<Id>)
      ensures Listing(ids, root.disk)
    {
      ids := [];
      var rest := root.disk.Keys;
      while rest != {}
        invariant rest <= root.disk.Keys && forall id :: id in ids <==> id in root.disk.Keys - rest
        invariant forall i, j | 0 <= i < j < |ids| :: Newer(ids[i], ids[j])
        decreases |rest|
      {
        var id :| id in rest;
        ids := Inserted(ids, id);
        rest := rest - {id};
      }
    }

    static method Inserted(ids: seq<Id>, id: Id) returns (more: seq<Id>)
      requires (forall i, j | 0 <= i < j < |ids| :: Newer(ids[i], ids[j])) && id !in ids
      ensures (forall i, j | 0 <= i < j < |more| :: Newer(more[i], more[j])) && forall x :: x in more <==> x in ids || x == id
    {
      var i := 0;
      while i < |ids| && Newer(ids[i], id)
        invariant 0 <= i <= |ids| && forall k | 0 <= k < i :: Newer(ids[k], id)
      {
        i := i + 1;
      }
      InsertedOrder(ids, id, i);
      InsertedElements(ids, id, i);
      more := ids[..i] + [id] + ids[i..];
    }

    method Restore(id: Id) returns (r: Option<map<string, Content>>)
      requires DiskOk(root.disk)
      ensures r == if id in HeldOn(root.disk) then Some(HeldOn(root.disk)[id]) else None
    {
      if id !in root.disk || root.disk[id].manifest.None? {
        return None;
      }
      var m := root.disk[id].manifest.value;
      var restored: map<string, Content> := map[];
      var rest := m.Keys;
      while rest != {}
        invariant rest <= m.Keys && restored.Keys == m.Keys - rest
        invariant forall p | p in restored :: restored[p] == ContentsOf(root.disk[id])[p]
        decreases |rest|
      {
        var p :| p in rest;
        if m[p].None? {
          restored := restored[p := None];
        } else {
          restored := restored[p := Some(root.disk[id].files[m[p].value])];
        }
        rest := rest - {p};
      }
      assert restored == ContentsOf(root.disk[id]);
      return Some(restored);
    }

    /** Walks the checkpoints from the newest and takes the file's entry out of every one after
        the first hundred that have it. */
    method PruneFile(path: string)
      requires Valid()
      modifies root
      ensures Valid() && root.disk.Keys <= old(root.disk).Keys
      ensures HeldOn(root.disk) == Pruned(old(HeldOn(root.disk)), path, old(HeldOn(root.disk)).Keys)
      ensures old(Tight(root.disk)) ==> Tight(root.disk)
    {
      hide *;
      var ids := List();
      var seen: nat := 0;
      ghost var before := root.disk;
      ValidIs();
      PruneBegins(root.disk, path, ids);
      for i := 0 to |ids|
        invariant PrunedSoFar(before, root.disk, path, ids, i, seen)
        invariant Valid() && (Tight(before) ==> Tight(root.disk))
      {
        var id := ids[i];
        ValidIs();
        ghost var was := root.disk;
        PruneLook(before, root.disk, path, ids, i, seen);
        if root.disk[id].manifest.None? || path !in root.disk[id].manifest.value {
          continue;
        }
        seen := seen + 1;
        if seen <= KEEP {
          continue;
        }
        if Tight(root.disk) {
          DroppedTight(root.disk, id, path);
        }
        RemoveEntry(id, path);
        ValidIs();
      }
      ValidIs();
      PruneDone(before, root.disk, path, ids, seen);
    }

    lemma ValidIs()
      ensures Valid() <==> DiskOk(root.disk)
    {
    }

    /** The stored file goes, then the key, then an empty manifest with its directory. */
    method RemoveEntry(id: Id, path: string)
      requires DiskOk(root.disk) && id in root.disk && root.disk[id].manifest.Some? && path in root.disk[id].manifest.value
      modifies root
      ensures root.disk == Dropped(old(root.disk), id, path)
    {
      var d := root.disk[id];
      var stored := d.manifest.value[path];
      var files := if stored.Some? then d.files - {stored.value} else d.files;
      var manifest := d.manifest.value - {path};
      if manifest == map[] {
        if files == map[] {
          root.disk := root.disk - {id};
        } else {
          root.disk := root.disk[id := Dir(None, files)];
        }
      } else {
        root.disk := root.disk[id := Dir(Some(manifest), files)];
      }
    }

    /** Stores the files under their numbers, then the manifest, and then prunes each of them. The
        directory may be there already, when another process gave the same name. */
    method Save(now: nat, paths: seq<string>, contents: map<string, Content>) returns (id: Option<Id>)
      requires Valid() && Distinct(paths) && contents.Keys == set p | p in paths
      modifies this, root
      ensures Valid()
      ensures paths == [] ==> id.None? && root.disk == old(root.disk) && checkpointSeq == old(checkpointSeq)
      ensures paths != [] ==> id == Some(Id(now, old(checkpointSeq))) && checkpointSeq == old(checkpointSeq) + 1
      ensures paths != [] ==> HeldOn(root.disk) == PruneAll(old(HeldOn(root.disk))[Id(now, old(checkpointSeq)) := contents], paths)
      // Unless the name was taken, nothing is left over.
      ensures old(Tight(root.disk)) && Id(now, old(checkpointSeq)) !in old(root.disk) ==> Tight(root.disk)
    {
      if paths == [] {
        return None;
      }
      hide *;
      ValidIs();
      var cp := Id(now, checkpointSeq);
      var d := Directory(paths, contents, if cp in root.disk then root.disk[cp].files else map[]);
      Replaced(root.disk, cp, d);
      if Tight(root.disk) && cp !in root.disk {
        TightWith(root.disk, cp, d);
      }
      checkpointSeq := checkpointSeq + 1;
      root.disk := root.disk[cp := d];
      ValidIs();
      PrunePaths(paths);
      return Some(cp);
    }

    /** What is written for the files over those that were there, and the manifest that names it. */
    static method Directory(paths: seq<string>, contents: map<string, Content>, before: map<string, string>) returns (d: Dir)
      requires paths != [] && contents.Keys == set p | p in paths
      requires Distinct(paths)
      ensures DirOk(d) && d.manifest.Some? && ContentsOf(d) == contents
      ensures before == map[] ==> TightDir(d)
    {
      var m: Manifest, files: map<string, string> := map[], before;
      hide Written, FileWritten, Stored, DirOk, ContentsOf, Distinct, StoredNames;
      WroteNone(paths, contents, before);
      for i := 0 to |paths|
        invariant Written(paths, contents, m, files, i)
        invariant before == map[] ==> files.Keys == StoredNames(m)
      {
        assert paths[i] in contents.Keys;
        NotWrittenYet(paths, contents, m, files, i);
        NamesMore(m, paths[i], Stored(i));
        WriteOne(paths, contents, m, files, i);
        var content := contents[paths[i]];
        if content.None? {
          m := m[paths[i] := None];
        } else {
          var stored := Stored(i);
          files := files[stored := content.value];
          m := m[paths[i] := Some(stored)];
        }
      }
      WrittenIs(paths, contents, m, files);
      d := Dir(Some(m), files);
    }

    method PrunePaths(paths: seq<string>)
      requires Valid()
      modifies root
      ensures Valid() && DiskOk(root.disk) && HeldOn(root.disk) == PruneAll(old(HeldOn(root.disk)), paths)
      ensures old(Tight(root.disk)) ==> Tight(root.disk)
    {
      ghost var h := HeldOn(root.disk);
      assert paths[0..] == paths;
      hide *;
      ValidIs();
      for k := 0 to |paths|
        invariant Valid() && DiskOk(root.disk) && PruneAll(h, paths) == PruneAll(HeldOn(root.disk), paths[k..])
        invariant old(Tight(root.disk)) ==> Tight(root.disk)
      {
        PruneAllStep(HeldOn(root.disk), paths, k);
        PruneFile(paths[k]);
        ValidIs();
      }
      PruneAllEnd(HeldOn(root.disk), paths);
    }
  }

  lemma WroteNone(paths: seq<string>, contents: map<string, Content>, before: map<string, string>)
    ensures Written(paths, contents, map[], before, 0) && StoredNames(map[]) == {}
  {
  }

  lemma NotWrittenYet(paths: seq<string>, contents: map<string, Content>, m: Manifest, files: map<string, string>, n: nat)
    requires Written(paths, contents, m, files, n) && n < |paths| && Distinct(paths)
    ensures paths[n] !in m
  {
    hide FileWritten;
    assert m.Keys == set k | 0 <= k < n :: paths[k];
  }

  lemma PruneAllStep(h: Held, paths: seq<string>, k: nat)
    requires k < |paths|
    ensures PruneAll(h, paths[k..]) == PruneAll(Pruned(h, paths[k], h.Keys), paths[k + 1..])
  {
    assert paths[k..][0] == paths[k] && paths[k..][1..] == paths[k + 1..];
  }

  lemma PruneAllEnd(h: Held, paths: seq<string>)
    ensures PruneAll(h, paths[|paths|..]) == h
  {
  }

  /** The processes of these saves, each with a store of its own, at the count of its saves. */
  ghost predicate Counting(stores: map<nat, CheckpointStore>, root: Root, saves: seq<Save>)
    reads set p | p in stores :: stores[p]
  {
    && (forall p | p in stores :: stores[p].root == root && stores[p].checkpointSeq == CountOf(saves, p))
    && (forall p, q | p in stores && q in stores && p != q :: stores[p] != stores[q])
    && (forall p :: p !in stores ==> CountOf(saves, p) == 0)
  }

  lemma NothingYet()
    ensures After([]) == map[] && forall p :: CountOf([], p) == 0
  {
  }

  lemma CountsOn(saves: seq<Save>, k: nat)
    requires k < |saves|
    ensures forall p :: CountOf(saves[..k + 1], p) == CountOf(saves[..k], p) + if saves[k].process == p then 1 else 0
  {
    assert saves[..k + 1][..k] == saves[..k];
  }

  lemma AfterSnoc(saves: seq<Save>, k: nat)
    requires k < |saves|
    ensures After(saves[..k + 1]) ==
            PruneAll(After(saves[..k])[Id(saves[k].ts, CountOf(saves[..k], saves[k].process)) := saves[k].contents], saves[k].paths)
  {
    assert saves[..k + 1][..k] == saves[..k];
    hide PruneAll, CountOf;
  }

  /** The stores with one for this process, which begins its count if it has none. */
  method Joined(stores: map<nat, CheckpointStore>, root: Root, process: nat, ghost saves: seq<Save>)
    returns (more: map<nat, CheckpointStore>)
    requires Counting(stores, root, saves)
    ensures Counting(more, root, saves) && process in more
    ensures forall p | p in more :: (p in stores && more[p] == stores[p]) || fresh(more[p])
  {
    hide CountOf;
    more := stores;
    if process !in stores {
      var store := new CheckpointStore(root);
      more := stores[process := store];
    }
  }

  /** The next save, by its process. */
  method MakeSave(stores: map<nat, CheckpointStore>, root: Root, saves: seq<Save>, k: nat)
    requires k < |saves| && Sane(saves[k]) && saves[k].process in stores
    requires Counting(stores, root, saves[..k]) && DiskOk(root.disk) && HeldOn(root.disk) == After(saves[..k])
    modifies root, stores[saves[k].process]
    ensures Counting(stores, root, saves[..k + 1]) && DiskOk(root.disk) && HeldOn(root.disk) == After(saves[..k + 1])
    ensures DistinctIds(saves) && old(Tight(root.disk)) ==> Tight(root.disk)
  {
    if DistinctIds(saves) && Tight(root.disk) {
      NewIdIsFree(root.disk, saves, k);
    }
    CountsOn(saves, k);
    AfterSnoc(saves, k);
    hide PruneAll, HeldOn, DiskOk, After, CountOf, Tight, DistinctIds;
    var id := stores[saves[k].process].Save(saves[k].ts, saves[k].paths, saves[k].contents);
  }

  /** Processes that make these saves in turn, in one directory, end with what the history function
      describes; what restoring any checkpoint then gives is in that function's result. If no two
      checkpoints have one name, no file or directory is left over. */
  method MakeSaves(saves: seq<Save>) returns (root: Root)
    requires forall k | 0 <= k < |saves| :: Sane(saves[k])
    ensures fresh(root) && DiskOk(root.disk) && HeldOn(root.disk) == After(saves)
    ensures DistinctIds(saves) ==> Tight(root.disk)
  {
    root := new Root();
    assert HeldOn(root.disk) == map[];
    var stores: map<nat, CheckpointStore> := map[];
    NothingYet();
    assert saves[..0] == [];
    hide Counting, HeldOn, DiskOk, After, Tight, DistinctIds;
    NoneIsTight();
    CountingNone(root);
    for k := 0 to |saves|
      invariant fresh(root) && DiskOk(root.disk) && HeldOn(root.disk) == After(saves[..k])
      invariant (forall p | p in stores :: fresh(stores[p])) && Counting(stores, root, saves[..k])
      invariant DistinctIds(saves) ==> Tight(root.disk)
    {
      stores := Joined(stores, root, saves[k].process, saves[..k]);
      MakeSave(stores, root, saves, k);
    }
    assert saves[..|saves|] == saves;
  }

  lemma NoneIsTight()
    ensures Tight(map[])
  {
  }

  lemma CountingNone(root: Root)
    ensures Counting(map[], root, [])
  {
  }
}
