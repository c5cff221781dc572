/** The second input: graph events merged into the log by time, and the list of open nodes. */
module Graph {
  import opened Events
  import opened Projection

  // ---- The open list ----

  function OpenAdd(openNodes: seq<string>, node: string): seq<string>
  {
    if node == "" || node in openNodes then openNodes else openNodes + [node]
  }

  function OpenRemove(openNodes: seq<string>, node: string): seq<string>
  {
    if openNodes == [] then []
    else (if openNodes[0] != node then [openNodes[0]] else []) + OpenRemove(openNodes[1..], node)
  }

  predicate Ends(outcome: string) { outcome in {"completed", "failed", "rejected"} }

  /** The open list after one more graph event. */
  function OpenStep(openNodes: seq<string>, kind: GraphKind): seq<string>
  {
    match kind
    case NodeDeclared(n) => OpenAdd(openNodes, n)
    case NodeReopened(n) => OpenAdd(openNodes, n)
    case NodeResult(n, outcome) => if Ends(outcome) then OpenRemove(openNodes, n) else openNodes
    case _ => openNodes
  }

  function OpenAfter(q: seq<GraphEvent>, n: nat): seq<string>
    requires n <= |q|
  {
    if n == 0 then [] else OpenStep(OpenAfter(q, n - 1), q[n - 1].kind)
  }

  predicate Opens(kind: GraphKind, node: string)
  {
    node != "" && (kind == NodeDeclared(node) || kind == NodeReopened(node))
  }

  predicate Terminates(kind: GraphKind, node: string)
  {
    kind.NodeResult? && kind.node == node && Ends(kind.outcome)
  }

  /** The node was declared or reopened at event k and not ended since. */
  ghost predicate OpenSince(q: seq<GraphEvent>, n: nat, node: string, k: nat)
    requires n <= |q|
  {
    k < n && Opens(q[k].kind, node) && forall m | k < m < n :: !Terminates(q[m].kind, node)
  }

  predicate NoDuplicates(s: seq<string>)
  {
    forall i, j | 0 <= i < j < |s| :: s[i] != s[j]
  }

  lemma {:induction false} OpenRemoveIs(openNodes: seq<string>, node: string)
    requires NoDuplicates(openNodes)
    ensures NoDuplicates(OpenRemove(openNodes, node))
    ensures forall x :: x in OpenRemove(openNodes, node) <==> x in openNodes && x != node
  {
    if openNodes != [] {
      var rest := openNodes[1..];
      assert openNodes == [openNodes[0]] + rest;
      assert NoDuplicates(rest);
      OpenRemoveIs(rest, node);
      assert openNodes[0] !in rest;
    }
  }

  /** The list holds, without repeats, exactly the nodes declared or reopened and not ended since. */
  lemma {:induction false} OpenIsFold(q: seq<GraphEvent>, n: nat)
    requires n <= |q|
    ensures NoDuplicates(OpenAfter(q, n))
    ensures forall node :: node in OpenAfter(q, n) <==> exists k: nat :: OpenSince(q, n, node, k)
  {
    if n > 0 {
      OpenIsFold(q, n - 1);
      var before, after, kind := OpenAfter(q, n - 1), OpenAfter(q, n), q[n - 1].kind;
      if kind.NodeResult? {
        OpenRemoveIs(before, kind.node);
      }
      forall node ensures node in after <==> exists k: nat :: OpenSince(q, n, node, k) {
        if node in after {
          if Opens(kind, node) {
            assert OpenSince(q, n, node, n - 1);
          } else {
            var k: nat :| OpenSince(q, n - 1, node, k);
            assert OpenSince(q, n, node, k);
          }
        }
        if k: nat :| OpenSince(q, n, node, k) {
          if k < n - 1 {
            assert OpenSince(q, n - 1, node, k);
          }
        }
      }
    }
  }

  // ---- Applying graph events ----

  function SessionOf(kind: GraphKind): string
  {
    match kind
    case NodeStarted(_, session) => session
    case NodeResult(node, _) => "g-" + node
    case _ => ""
  }

  predicate ShowsSpine(kind: GraphKind)
  {
    kind.NodeDeclared? || (kind.NodeResult? && Ends(kind.outcome)) || (kind.NodeReopened? && kind.node != "")
  }

  /** One graph event: into the log at its own time, with a snapshot of the open list when it
      changes the list. */
  function ApplyGraph(s: State, g: GraphEvent): State
  {
    if g.kind.UnknownKind? then s.(curTs := if g.instant != 0 then "" else s.curTs)
    else
      var s1 := if g.instant != 0 then s.(curTs := g.time) else s;
      var nodes := OpenStep(s.graphOpen, g.kind);
      var s2 := Emit(s1, SessionOf(g.kind), Graph(g.kind)).(graphOpen := nodes);
      var s3 := if ShowsSpine(g.kind) then EmitSpine(s2) else s2;
      s3.(curTs := if g.instant != 0 then "" else s.curTs)
  }

  /** The head of the queue is due. */
  predicate Due(s: State, edge: nat)
  {
    s.graphIdx < |s.graphQ| && s.graphQ[s.graphIdx].instant <= edge
  }

  function ApplyNext(s: State): State
    requires s.graphIdx < |s.graphQ|
  {
    ApplyGraph(s, s.graphQ[s.graphIdx]).(graphIdx := s.graphIdx + 1)
  }

  function FlushBefore(s: State, edge: nat): State
    decreases |s.graphQ| - s.graphIdx
  {
    if Due(s, edge) then FlushBefore(ApplyNext(s), edge) else s
  }

  function FlushRemaining(s: State): State
    decreases |s.graphQ| - s.graphIdx
  {
    if s.graphIdx < |s.graphQ| then FlushRemaining(ApplyNext(s)) else s
  }

  // ---- What merging keeps ----

  /** The kinds of the graph events in the log, in order. */
  function KindsIn(log: seq<Event>): seq<GraphKind>
  {
    if log == [] then []
    else
      var e := log[|log| - 1];
      KindsIn(log[..|log| - 1]) + if e.body.Graph? then [e.body.kind] else []
  }

  function KnownKinds(q: seq<GraphEvent>, n: nat): seq<GraphKind>
    requires n <= |q|
  {
    if n == 0 then []
    else KnownKinds(q, n - 1) + if q[n - 1].kind.UnknownKind? then [] else [q[n - 1].kind]
  }

  /** The snapshot at log line k shows the open list after exactly the graph events before it. */
  ghost predicate SnapshotAt(log: seq<Event>, q: seq<GraphEvent>, k: nat, n: nat)
    requires k < |log|
  {
    n <= |q| && log[k].body.SpineUpdated? && log[k].body.openNodes == OpenAfter(q, n) && KindsIn(log[..k]) == KnownKinds(q, n)
  }

  ghost predicate SnapshotTrue(log: seq<Event>, q: seq<GraphEvent>, k: nat)
    requires k < |log|
  {
    log[k].body.SpineUpdated? ==> exists n: nat :: SnapshotAt(log, q, k, n)
  }

  ghost predicate SnapshotsTrue(log: seq<Event>, q: seq<GraphEvent>)
  {
    forall k | 0 <= k < |log| :: SnapshotTrue(log, q, k)
  }

  ghost predicate GraphOk(s: State)
  {
    && s.graphIdx <= |s.graphQ|
    && s.graphOpen == OpenAfter(s.graphQ, s.graphIdx)
    && KindsIn(s.events) == KnownKinds(s.graphQ, s.graphIdx)
    && SnapshotsTrue(s.events, s.graphQ)
  }

  lemma KindsSnoc(log: seq<Event>, e: Event)
    ensures KindsIn(log + [e]) == KindsIn(log) + if e.body.Graph? then [e.body.kind] else []
  {
    assert (log + [e])[..|log|] == log;
  }

  lemma SnapshotsSnoc(log: seq<Event>, q: seq<GraphEvent>, e: Event, n: nat)
    requires SnapshotsTrue(log, q) && n <= |q|
    requires e.body.SpineUpdated? ==> e.body.openNodes == OpenAfter(q, n) && KindsIn(log) == KnownKinds(q, n)
    ensures SnapshotsTrue(log + [e], q)
  {
    hide OpenAfter, KindsIn, KnownKinds;
    var log' := log + [e];
    forall k | 0 <= k < |log'| ensures SnapshotTrue(log', q, k) {
      if k < |log| {
        assert SnapshotTrue(log, q, k);
        assert log'[..k] == log[..k];
        if log[k].body.SpineUpdated? {
          var m: nat :| SnapshotAt(log, q, k, m);
          assert SnapshotAt(log', q, k, m);
        }
      } else {
        assert log'[..k] == log;
        assert e.body.SpineUpdated? ==> SnapshotAt(log', q, k, n);
      }
    }
  }

  /** Events other than graph events and snapshots leave the merge as it is. */
  lemma OtherEventKeepsGraph(s: State, s': State, e: Event)
    requires GraphOk(s) && s'.events == s.events + [e] && !e.body.Graph? && !e.body.SpineUpdated?
    requires s'.graphQ == s.graphQ && s'.graphIdx == s.graphIdx && s'.graphOpen == s.graphOpen
    ensures GraphOk(s')
  {
    KindsSnoc(s.events, e);
    assert KindsIn(s.events) + [] == KindsIn(s.events);
    SnapshotsSnoc(s.events, s.graphQ, e, s.graphIdx);
  }

  lemma EmitSpineKeepsGraph(s: State)
    requires GraphOk(s)
    ensures GraphOk(EmitSpine(s))
  {
    var s' := EmitSpine(s);
    var e := s'.events[|s.events|];
    KindsSnoc(s.events, e);
    assert KindsIn(s.events) + [] == KindsIn(s.events);
    SnapshotsSnoc(s.events, s.graphQ, e, s.graphIdx);
  }

  /** The graph event itself is in the log and counted; its snapshot is still to come. */
  lemma GraphEventOk(s: State, s': State, e: Event)
    requires GraphOk(s) && s.graphIdx < |s.graphQ| && s'.events == s.events + [e]
    requires s'.graphQ == s.graphQ && s'.graphIdx == s.graphIdx + 1
    requires s'.graphOpen == OpenStep(s.graphOpen, s.graphQ[s.graphIdx].kind)
    requires !s.graphQ[s.graphIdx].kind.UnknownKind? && e.body == Graph(s.graphQ[s.graphIdx].kind)
    ensures GraphOk(s')
  {
    KindsSnoc(s.events, e);
    SnapshotsSnoc(s.events, s.graphQ, e, s.graphIdx);
  }

  lemma UnknownSkipped(s: State)
    requires GraphOk(s) && s.graphIdx < |s.graphQ| && s.graphQ[s.graphIdx].kind.UnknownKind?
    ensures GraphOk(s.(graphIdx := s.graphIdx + 1))
  {
    assert KnownKinds(s.graphQ, s.graphIdx) + [] == KnownKinds(s.graphQ, s.graphIdx);
  }

  lemma TimeKeepsGraph(s: State, ts: string)
    requires GraphOk(s)
    ensures GraphOk(s.(curTs := ts))
  {
  }

  /** The state when the event is in the log and counted, before its snapshot. */
  function Entered(s: State): State
    requires s.graphIdx < |s.graphQ|
  {
    var g := s.graphQ[s.graphIdx];
    var s1 := if g.instant != 0 then s.(curTs := g.time) else s;
    Emit(s1, SessionOf(g.kind), Graph(g.kind)).(graphOpen := OpenStep(s.graphOpen, g.kind), graphIdx := s.graphIdx + 1)
  }

  lemma ApplyNextIs(s: State)
    requires s.graphIdx < |s.graphQ| && !s.graphQ[s.graphIdx].kind.UnknownKind?
    ensures var g := s.graphQ[s.graphIdx];
            ApplyNext(s) == (if ShowsSpine(g.kind) then EmitSpine(Entered(s)) else Entered(s))
                            .(curTs := if g.instant != 0 then "" else s.curTs)
  {
    hide OpenStep, ShowsSpine, SessionOf, Resolve;
  }

  lemma EnteredOk(s: State)
    requires GraphOk(s) && s.graphIdx < |s.graphQ| && !s.graphQ[s.graphIdx].kind.UnknownKind?
    ensures GraphOk(Entered(s))
  {
    hide GraphOk, OpenStep, SessionOf, Resolve;
    GraphEventOk(s, Entered(s), Entered(s).events[|s.events|]);
  }

  lemma ApplyNextOk(s: State)
    requires GraphOk(s) && s.graphIdx < |s.graphQ|
    ensures GraphOk(ApplyNext(s))
  {
    var g := s.graphQ[s.graphIdx];
    var ts := if g.instant != 0 then "" else s.curTs;
    if g.kind.UnknownKind? {
      UnknownSkipped(s);
      hide GraphOk;
      TimeKeepsGraph(s.(graphIdx := s.graphIdx + 1), ts);
    } else {
      hide *;
      ApplyNextIs(s);
      EnteredOk(s);
      EmitSpineKeepsGraph(Entered(s));
      TimeKeepsGraph(Entered(s), ts);
      TimeKeepsGraph(EmitSpine(Entered(s)), ts);
    }
  }

  lemma {:induction false} FlushBeforeOk(s: State, edge: nat)
    requires GraphOk(s)
    ensures GraphOk(FlushBefore(s, edge)) && !Due(FlushBefore(s, edge), edge)
    ensures FlushBefore(s, edge).graphQ == s.graphQ && FlushBefore(s, edge).graphIdx >= s.graphIdx
    ensures forall k | s.graphIdx <= k < FlushBefore(s, edge).graphIdx :: s.graphQ[k].instant <= edge
    decreases |s.graphQ| - s.graphIdx
  {
    if Due(s, edge) {
      ApplyNextOk(s);
      hide GraphOk, ApplyGraph;
      FlushBeforeOk(ApplyNext(s), edge);
      ApplyKeepsQueue(s);
    }
  }

  lemma ApplyKeepsQueue(s: State)
    requires s.graphIdx < |s.graphQ|
    ensures ApplyNext(s).graphQ == s.graphQ && ApplyNext(s).graphIdx == s.graphIdx + 1
    ensures ApplyNext(s).sessions == s.sessions && ApplyNext(s).asks == s.asks
  {
    hide OpenStep, ShowsSpine, SessionOf, Resolve;
  }

  lemma {:induction false} FlushRemainingOk(s: State)
    requires GraphOk(s)
    ensures GraphOk(FlushRemaining(s)) && FlushRemaining(s).graphIdx == |s.graphQ| && FlushRemaining(s).graphQ == s.graphQ
    ensures FlushRemaining(s).sessions == s.sessions
    decreases |s.graphQ| - s.graphIdx
  {
    if s.graphIdx < |s.graphQ| {
      ApplyNextOk(s);
      ApplyKeepsQueue(s);
      hide GraphOk, ApplyGraph;
      FlushRemainingOk(ApplyNext(s));
    }
  }
}
