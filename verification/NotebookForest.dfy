/**
 The tree of notebooks: parent pointers change under Create, Update, Delete and
 MoveNotebook (internal/service/notebook_service.go), and buildBreadcrumb
 (internal/service/note_service.go) climbs them in a loop that only stops at a
 root. First every request runs on its own, then requests interleave as in
 `EmbeddingIndex`.
 */
module NotebookForest {
  import opened Wrappers
  import opened EmbeddingIndex

  type Notebooks = map<Id, Notebook>

  predicate Visible(nbs: Notebooks, id: Id, userId: Id) {
    id in nbs && !nbs[id].deleted && nbs[id].userId == userId
  }

  /** The notebook that a climb visits after `id`: its parent, if the owner can see it. */
  function Up(nbs: Notebooks, id: Id): Option<Id> {
    if id in nbs && !nbs[id].deleted && nbs[id].parentId.Some?
       && Visible(nbs, nbs[id].parentId.value, nbs[id].userId)
    then nbs[id].parentId
    else None
  }

  /** A climb of |path| - 1 steps. */
  predicate IsPath(nbs: Notebooks, path: seq<Id>) {
    path != [] && forall k :: 0 <= k < |path| - 1 ==> Up(nbs, path[k]) == Some(path[k + 1])
  }

  function Last<T>(s: seq<T>): T
    requires s != []
  {
    s[|s| - 1]
  }

  /** `b` is `a` or one of its ancestors. */
  ghost predicate Below(nbs: Notebooks, a: Id, b: Id) {
    exists path: seq<Id> :: IsPath(nbs, path) && path[0] == a && Last(path) == b
  }

  /** No climb comes back to where it started. */
  ghost predicate Acyclic(nbs: Notebooks) {
    forall path: seq<Id> :: IsPath(nbs, path) && |path| >= 2 ==> path[0] != Last(path)
  }

  /** A climb that ends at a root. */
  predicate IsChain(nbs: Notebooks, start: Id, path: seq<Id>) {
    IsPath(nbs, path) && path[0] == start && Up(nbs, Last(path)) == None
  }

  predicate Distinct(path: seq<Id>) {
    forall i, j :: 0 <= i < j < |path| ==> path[i] != path[j]
  }

  // ---------------------------------------------------------------- paths

  lemma SubPath(nbs: Notebooks, path: seq<Id>, i: nat, j: nat)
    requires IsPath(nbs, path) && i < j <= |path|
    ensures IsPath(nbs, path[i..j])
  {
    forall k | 0 <= k < |path[i..j]| - 1 ensures Up(nbs, path[i..j][k]) == Some(path[i..j][k + 1]) {
      assert Up(nbs, path[i + k]) == Some(path[i + k + 1]);
    }
  }

  /** The step that enters position `k`. */
  lemma Edge(nbs: Notebooks, path: seq<Id>, k: nat)
    requires IsPath(nbs, path) && 1 <= k < |path|
    ensures Up(nbs, path[k - 1]) == Some(path[k])
  {
    assert Up(nbs, path[k - 1]) == Some(path[k - 1 + 1]);
  }

  lemma JoinPaths(nbs: Notebooks, a: seq<Id>, b: seq<Id>)
    requires IsPath(nbs, a) && IsPath(nbs, b) && Up(nbs, Last(a)) == Some(b[0])
    ensures IsPath(nbs, a + b) && (a + b)[0] == a[0] && Last(a + b) == Last(b)
  {
  }

  lemma AcyclicPathsAreDistinct(nbs: Notebooks, path: seq<Id>)
    requires Acyclic(nbs) && IsPath(nbs, path)
    ensures Distinct(path)
  {
    forall i, j | 0 <= i < j < |path| ensures path[i] != path[j] {
      SubPath(nbs, path, i, j + 1);
      assert path[i..j + 1][0] == path[i] && Last(path[i..j + 1]) == path[j];
    }
  }

  /** Climbing is deterministic: two chains from one start are the same. */
  lemma ChainUnique(nbs: Notebooks, start: Id, a: seq<Id>, b: seq<Id>)
    requires IsChain(nbs, start, a) && IsChain(nbs, start, b)
    ensures a == b
  {
    PathsAgree(nbs, a, b, if |a| <= |b| then |a| else |b|);
    assert a[..|a|] == a && b[..|b|] == b;
    if |a| < |b| {
      Edge(nbs, b, |a|);
    } else if |b| < |a| {
      Edge(nbs, a, |b|);
    }
  }

  lemma {:induction false} PathsAgree(nbs: Notebooks, a: seq<Id>, b: seq<Id>, k: nat)
    requires IsPath(nbs, a) && IsPath(nbs, b) && a[0] == b[0]
    requires 1 <= k <= |a| && k <= |b|
    ensures a[..k] == b[..k]
  {
    if 1 < k {
      PathsAgree(nbs, a, b, k - 1);
      assert a[k - 2] == a[..k - 1][k - 2] && b[k - 2] == b[..k - 1][k - 2];
      assert Up(nbs, a[k - 2]) == Some(a[k - 2 + 1]) && Up(nbs, b[k - 2]) == Some(b[k - 2 + 1]);
    }
  }

  /** Along a cycle one can climb for ever. */
  lemma {:induction false} CycleClimbsForever(nbs: Notebooks, cycle: seq<Id>, n: nat) returns (path: seq<Id>)
    requires IsPath(nbs, cycle) && |cycle| >= 2 && cycle[0] == Last(cycle)
    ensures IsPath(nbs, path) && path[0] == cycle[0] && Last(path) == cycle[0] && n < |path|
  {
    if n == 0 {
      path := cycle;
    } else {
      var shorter := CycleClimbsForever(nbs, cycle, n - 1);
      SubPath(nbs, cycle, 1, |cycle|);
      assert Up(nbs, cycle[0]) == Some(cycle[0 + 1]);
      JoinPaths(nbs, shorter, cycle[1..]);
      path := shorter + cycle[1..];
    }
  }

  // ---------------------------------------------------------------- breadcrumbs

  datatype Crumb = Crumb(id: Id, name: string)

  /** A chain read from the root down. */
  function RootFirst(nbs: Notebooks, path: seq<Id>): (crumbs: seq<Crumb>)
    requires forall k :: 0 <= k < |path| ==> path[k] in nbs
    ensures |crumbs| == |path|
  {
    seq(|path|, i requires 0 <= i < |path| =>
      Crumb(path[|path| - 1 - i], nbs[path[|path| - 1 - i]].name))
  }

  /** The crumbs shown for a note in the notebook: nothing when the caller cannot see it, else its chain. */
  ghost predicate IsBreadcrumb(nbs: Notebooks, notebookId: Id, userId: Id, crumbs: seq<Crumb>) {
    if !Visible(nbs, notebookId, userId) then crumbs == []
    else exists path: seq<Id> :: IsChain(nbs, notebookId, path)
                        && (forall k :: 0 <= k < |path| ==> path[k] in nbs)
                        && crumbs == RootFirst(nbs, path)
  }

  /** One step up from a path to a notebook that is shown: a new notebook, in front of the crumbs. */
  lemma ClimbOneMore(nbs: Notebooks, path: seq<Id>, id: Id)
    requires Acyclic(nbs) && id in nbs && !nbs[id].deleted
    requires path != [] ==> IsPath(nbs, path) && Last(path) in nbs && Up(nbs, Last(path)) == Some(id)
    requires forall k :: 0 <= k < |path| ==> path[k] in nbs
    ensures IsPath(nbs, path + [id]) && id !in path
    ensures RootFirst(nbs, path + [id]) == [Crumb(id, nbs[id].name)] + RootFirst(nbs, path)
  {
    assert IsPath(nbs, [id]);
    if path != [] {
      JoinPaths(nbs, path, [id]);
    }
    AcyclicPathsAreDistinct(nbs, path + [id]);
    forall k | 0 <= k < |path| ensures path[k] != id {
      assert (path + [id])[k] != (path + [id])[|path|];
    }
  }

  /** The climb of buildBreadcrumb. */
  method BuildBreadcrumb(nbs: Notebooks, notebookId: Id, userId: Id)
    returns (breadcrumb: seq<Crumb>, ghost path: seq<Id>)
    requires Acyclic(nbs)
    ensures IsBreadcrumb(nbs, notebookId, userId, breadcrumb)
    ensures forall i, j :: 0 <= i < j < |breadcrumb| ==> breadcrumb[i].id != breadcrumb[j].id
    ensures Visible(nbs, notebookId, userId) ==> breadcrumb != [] && Last(breadcrumb).id == notebookId
  {
    breadcrumb, path := [], [];
    var currentId := Some(notebookId);
    ghost var left := nbs.Keys;
    while currentId.Some?
      invariant path == [] ==> currentId == Some(notebookId)
      invariant forall k :: 0 <= k < |path| ==> Visible(nbs, path[k], userId)
      invariant path != [] ==>
                  IsPath(nbs, path) && path[0] == notebookId && currentId == nbs[Last(path)].parentId
      invariant breadcrumb == RootFirst(nbs, path)
      invariant forall id :: id in left <==> id in nbs && id !in path
      decreases |left|, currentId.Some?
    {
      var id := currentId.value;
      if !(id in nbs && !nbs[id].deleted && nbs[id].userId == userId) {
        break;
      }
      var notebook := nbs[id];
      ghost var before := path;
      path := path + [id];
      ClimbOneMore(nbs, before, id);
      breadcrumb := [Crumb(id, notebook.name)] + breadcrumb;
      left := left - {id};
      currentId := notebook.parentId;
    }
    if path != [] {
      AcyclicPathsAreDistinct(nbs, path);
      assert IsChain(nbs, notebookId, path);
    }
  }

  /** On an acyclic graph the breadcrumb is determined by the rows. */
  lemma BreadcrumbUnique(nbs: Notebooks, notebookId: Id, userId: Id, a: seq<Crumb>, b: seq<Crumb>)
    requires IsBreadcrumb(nbs, notebookId, userId, a) && IsBreadcrumb(nbs, notebookId, userId, b)
    ensures a == b
  {
    if Visible(nbs, notebookId, userId) {
      var p: seq<Id> :| IsChain(nbs, notebookId, p) && (forall k :: 0 <= k < |p| ==> p[k] in nbs) && a == RootFirst(nbs, p);
      var q: seq<Id> :| IsChain(nbs, notebookId, q) && (forall k :: 0 <= k < |q| ==> q[k] in nbs) && b == RootFirst(nbs, q);
      ChainUnique(nbs, notebookId, p, q);
    }
  }

  // ---------------------------------------------------------------- setting a parent

  /** The graph after the parent pointer of one row is overwritten. */
  function WithParent(nbs: Notebooks, id: Id, parentId: Option<Id>): Notebooks
    requires id in nbs
  {
    nbs[id := nbs[id].(parentId := parentId)]
  }

  lemma WithParentUp(nbs: Notebooks, id: Id, parentId: Option<Id>)
    requires id in nbs
    ensures forall x :: x != id ==> Up(WithParent(nbs, id, parentId), x) == Up(nbs, x)
  {
  }

  /** A path that does not leave `id` is a path on both sides of the change. */
  lemma PathAvoiding(nbs: Notebooks, other: Notebooks, id: Id, path: seq<Id>)
    requires IsPath(nbs, path) && forall x :: x != id ==> Up(nbs, x) == Up(other, x)
    requires forall k :: 0 <= k < |path| - 1 ==> path[k] != id
    ensures IsPath(other, path)
  {
    forall k | 0 <= k < |path| - 1 ensures Up(other, path[k]) == Some(path[k + 1]) {
      assert Up(nbs, path[k]) == Some(path[k + 1]);
    }
  }

  /** Cuts a path at its first visit to `id`. */
  lemma UpToFirst(nbs: Notebooks, path: seq<Id>, id: Id) returns (short: seq<Id>)
    requires IsPath(nbs, path) && id in path
    ensures IsPath(nbs, short) && short[0] == path[0] && Last(short) == id
    ensures forall k :: 0 <= k < |short| - 1 ==> short[k] != id
  {
    var i := 0;
    while path[i] != id
      invariant 0 <= i < |path| && id in path[i..]
      invariant forall k :: 0 <= k < i ==> path[k] != id
      decreases |path| - i
    {
      i := i + 1;
    }
    SubPath(nbs, path, 0, i + 1);
    short := path[0..i + 1];
  }

  /**
   Overwriting a parent pointer, as a move or a save of a stale copy does, keeps
   the graph acyclic exactly when the notebook is not above its new parent.
   */
  lemma SetParentKeepsAcyclicIff(nbs: Notebooks, id: Id, parentId: Option<Id>)
    requires Acyclic(nbs) && id in nbs
    ensures var after := WithParent(nbs, id, parentId);
            Acyclic(after) <==> Up(after, id) == None || !Below(nbs, Up(after, id).value, id)
  {
    var after := WithParent(nbs, id, parentId);
    WithParentUp(nbs, id, parentId);
    if Up(after, id).Some? && Below(nbs, Up(after, id).value, id) {
      var path: seq<Id> :| IsPath(nbs, path) && path[0] == Up(after, id).value && Last(path) == id;
      var short := UpToFirst(nbs, path, id);
      PathAvoiding(nbs, after, id, short);
      assert IsPath(after, [id]);
      JoinPaths(after, [id], short);
      assert !Acyclic(after) by {
        assert ([id] + short)[0] == Last([id] + short);
      }
    } else {
      forall path: seq<Id> | IsPath(after, path) && |path| >= 2 ensures path[0] != Last(path) {
        if path[0] == Last(path) {
          NewCycleUsesNewEdge(nbs, id, parentId, path);
        }
      }
    }
  }

  lemma NewCycleUsesNewEdge(nbs: Notebooks, id: Id, parentId: Option<Id>, cycle: seq<Id>)
    requires Acyclic(nbs) && id in nbs
    requires var after := WithParent(nbs, id, parentId);
             IsPath(after, cycle) && |cycle| >= 2 && cycle[0] == Last(cycle)
    ensures var after := WithParent(nbs, id, parentId);
            Up(after, id).Some? && Below(nbs, Up(after, id).value, id)
  {
    var after := WithParent(nbs, id, parentId);
    WithParentUp(nbs, id, parentId);
    if forall k :: 0 <= k < |cycle| - 1 ==> cycle[k] != id {
      PathAvoiding(after, nbs, id, cycle);
      assert false;
    }
    var k :| 0 <= k < |cycle| - 1 && cycle[k] == id;
    var round := RotatedTail(after, cycle, k);
    var short := UpToFirst(after, round, id);
    PathAvoiding(after, nbs, id, short);
    assert Below(nbs, short[0], id);
  }

  /** The cycle, walked once from the step after position `k` until it is back there. */
  lemma RotatedTail(nbs: Notebooks, cycle: seq<Id>, k: nat) returns (round: seq<Id>)
    requires IsPath(nbs, cycle) && k < |cycle| - 1 && cycle[0] == Last(cycle)
    ensures IsPath(nbs, round) && Up(nbs, cycle[k]) == Some(round[0]) && Last(round) == cycle[k]
  {
    Edge(nbs, cycle, k + 1);
    SubPath(nbs, cycle, k + 1, |cycle|);
    round := cycle[k + 1..|cycle|];
    if 0 < k {
      Edge(nbs, cycle, 1);
      SubPath(nbs, cycle, 1, k + 1);
      JoinPaths(nbs, round, cycle[1..k + 1]);
      round := round + cycle[1..k + 1];
    }
  }

  // ---------------------------------------------------------------- the requests

  datatype Request =
    | Create(id: Id, name: string, parentId: Option<Id>, userId: Id)
    | Rename(id: Id, userId: Id, name: string)
    | Delete(id: Id, userId: Id)
    | Move(id: Id, userId: Id, parentId: Option<Id>)

  /** A fresh UUID is one that nothing refers to. */
  predicate Fresh(nbs: Notebooks, id: Id) {
    id !in nbs && forall b :: b in nbs ==> nbs[b].parentId != Some(id)
  }

  /** The rows after a deletion: the notebook is gone and its owner's children are roots. */
  function Deleted(nbs: Notebooks, id: Id): Notebooks
    requires id in nbs
  {
    map b | b in nbs ::
      if b == id then nbs[b].(deleted := true)
      else if !nbs[b].deleted && nbs[b].parentId == Some(id) && nbs[b].userId == nbs[id].userId
      then nbs[b].(parentId := None)
      else nbs[b]
  }

  /** This is what the deleting transaction does to the notebooks table. */
  lemma DeletedIsTransaction(s: State, id: Id)
    requires id in s.notebooks
    ensures NotebookDeleted(s, id).notebooks == Deleted(s.notebooks, id)
  {
  }

  /** A request that finds nothing changes nothing. */
  function Handle(nbs: Notebooks, r: Request): Notebooks {
    match r
    case Create(id, name, parentId, userId) => nbs[id := Notebook(name, parentId, userId, false)]
    case Rename(id, userId, name) => if Visible(nbs, id, userId) then nbs[id := nbs[id].(name := name)] else nbs
    case Delete(id, userId) => if Visible(nbs, id, userId) then Deleted(nbs, id) else nbs
    case Move(id, userId, parentId) =>
      if Visible(nbs, id, userId) && (parentId.Some? ==> Visible(nbs, parentId.value, userId))
      then WithParent(nbs, id, parentId)
      else nbs
  }

  lemma CreateKeepsAcyclic(nbs: Notebooks, r: Request)
    requires Acyclic(nbs) && r.Create? && Fresh(nbs, r.id) && r.parentId != Some(r.id)
    ensures Acyclic(Handle(nbs, r))
  {
    var after := Handle(nbs, r);
    forall path: seq<Id> | IsPath(after, path) && |path| >= 2 ensures path[0] != Last(path) {
      forall k | 1 <= k < |path| ensures path[k] != r.id {
        Edge(after, path, k);
      }
      if path[0] != r.id {
        forall k | 0 <= k < |path| - 1 ensures Up(nbs, path[k]) == Some(path[k + 1]) {
          assert Up(after, path[k]) == Some(path[k + 1]);
        }
        assert IsPath(nbs, path);
      }
    }
  }

  /** After a deletion a climb goes as before, except that it neither leaves nor enters the deleted notebook. */
  lemma DeletedUp(nbs: Notebooks, id: Id, x: Id)
    requires id in nbs && !nbs[id].deleted
    ensures Up(Deleted(nbs, id), x) == if x == id || Up(nbs, x) == Some(id) then None else Up(nbs, x)
  {
  }

  /** A graph that has lost edges and gained none is still acyclic. */
  lemma FewerEdgesKeepAcyclic(nbs: Notebooks, after: Notebooks)
    requires Acyclic(nbs) && forall x :: Up(after, x).Some? ==> Up(after, x) == Up(nbs, x)
    ensures Acyclic(after)
  {
    forall path: seq<Id> | IsPath(after, path) && |path| >= 2 ensures path[0] != Last(path) {
      forall k | 0 <= k < |path| - 1 ensures Up(nbs, path[k]) == Some(path[k + 1]) {
        assert Up(after, path[k]) == Some(path[k + 1]);
      }
      assert IsPath(nbs, path);
    }
  }

  lemma DeleteKeepsAcyclic(nbs: Notebooks, r: Request)
    requires Acyclic(nbs) && r.Delete?
    ensures Acyclic(Handle(nbs, r))
  {
    FewerEdgesKeepAcyclic(nbs, Handle(nbs, r));
  }

  lemma RenameKeepsAcyclic(nbs: Notebooks, r: Request)
    requires Acyclic(nbs) && r.Rename?
    ensures Acyclic(Handle(nbs, r))
  {
    FewerEdgesKeepAcyclic(nbs, Handle(nbs, r));
  }

  /** MoveNotebook has no descendant check: this is exactly the check it lacks. */
  ghost predicate NotIntoOwnSubtree(nbs: Notebooks, r: Request)
    requires r.Move?
  {
    Visible(nbs, r.id, r.userId) && r.parentId.Some? && Visible(nbs, r.parentId.value, r.userId)
    ==> !Below(nbs, r.parentId.value, r.id)
  }

  lemma MoveKeepsAcyclicIff(nbs: Notebooks, r: Request)
    requires Acyclic(nbs) && r.Move?
    ensures Acyclic(Handle(nbs, r)) <==> NotIntoOwnSubtree(nbs, r)
  {
    if Visible(nbs, r.id, r.userId) && (r.parentId.Some? ==> Visible(nbs, r.parentId.value, r.userId)) {
      SetParentKeepsAcyclicIff(nbs, r.id, r.parentId);
      if r.parentId.Some? && r.parentId != Some(r.id) {
        assert Up(WithParent(nbs, r.id, r.parentId), r.id) == r.parentId;
      }
    }
  }

  /** After a move into its own subtree, climbing from the notebook never ends, and neither does its breadcrumb. */
  lemma MoveIntoSubtreeNeverEnds(nbs: Notebooks, r: Request, n: nat) returns (path: seq<Id>)
    requires Acyclic(nbs) && r.Move? && !NotIntoOwnSubtree(nbs, r)
    ensures IsPath(Handle(nbs, r), path) && path[0] == r.id && n < |path|
  {
    var after := Handle(nbs, r);
    WithParentUp(nbs, r.id, r.parentId);
    var down: seq<Id> :| IsPath(nbs, down) && down[0] == r.parentId.value && Last(down) == r.id;
    var short := UpToFirst(nbs, down, r.id);
    PathAvoiding(nbs, after, r.id, short);
    assert IsPath(after, [r.id]);
    JoinPaths(after, [r.id], short);
    path := CycleClimbsForever(after, [r.id] + short, n);
  }

  /** A request that the missing check would let through, with fresh identifiers for creations. */
  ghost predicate Safe(nbs: Notebooks, r: Request) {
    && (r.Create? ==> Fresh(nbs, r.id) && r.parentId != Some(r.id))
    && (r.Move? ==> NotIntoOwnSubtree(nbs, r))
  }

  ghost predicate SafeRun(nbs: Notebooks, requests: seq<Request>)
    decreases |requests|
  {
    requests == [] || (Safe(nbs, requests[0]) && SafeRun(Handle(nbs, requests[0]), requests[1..]))
  }

  function HandleAll(nbs: Notebooks, requests: seq<Request>): Notebooks
    decreases |requests|
  {
    if requests == [] then nbs else HandleAll(Handle(nbs, requests[0]), requests[1..])
  }

  /** Over any run that respects the missing check the notebooks stay a forest. */
  lemma {:induction false} RunKeepsForest(nbs: Notebooks, requests: seq<Request>)
    requires Acyclic(nbs) && SafeRun(nbs, requests)
    ensures Acyclic(HandleAll(nbs, requests))
    decreases |requests|
  {
    if requests != [] {
      var r := requests[0];
      match r {
        case Create(_, _, _, _) => CreateKeepsAcyclic(nbs, r);
        case Rename(_, _, _) => RenameKeepsAcyclic(nbs, r);
        case Delete(_, _) => DeleteKeepsAcyclic(nbs, r);
        case Move(_, _, _) => MoveKeepsAcyclicIff(nbs, r);
      }
      RunKeepsForest(Handle(nbs, r), requests[1..]);
    }
  }

  // ---------------------------------------------------------------- interleaved saves

  /** The table with one row written, but without a parent. */
  function AsRoot(nbs: Notebooks, id: Id, row: Notebook): Notebooks {
    nbs[id := row.(parentId := None)]
  }

  /** A notebook without a parent closes no cycle, even if the write makes it visible to its children again. */
  lemma AsRootKeepsAcyclic(nbs: Notebooks, id: Id, row: Notebook)
    requires Acyclic(nbs)
    ensures Acyclic(AsRoot(nbs, id, row))
  {
    var after := AsRoot(nbs, id, row);
    assert Up(after, id) == None;
    forall path: seq<Id> | IsPath(after, path) && |path| >= 2 ensures path[0] != Last(path) {
      if path[0] == Last(path) {
        forall k | 0 <= k < |path| - 1
          ensures path[k] != id && Up(nbs, path[k]) == Some(path[k + 1])
        {
          assert Up(after, path[k]) == Some(path[k + 1]);
          assert Up(after, path[0]) == Some(path[1]);
          if k + 1 < |path| - 1 {
            assert Up(after, path[k + 1]) == Some(path[k + 2]);
          }
          assert path[k + 1] != id;
        }
        assert IsPath(nbs, path);
      }
    }
  }

  /** Above the parent of the row, as the owner sees it, there is no way back to the notebook. */
  ghost predicate NotAbove(nbs: Notebooks, id: Id, row: Notebook) {
    var parent := Up(nbs[id := row], id);
    parent.Some? ==> !Below(AsRoot(nbs, id, row), parent.value, id)
  }

  /** Writing a whole row, as every save and insert does, keeps the graph acyclic under exactly this condition. */
  lemma SaveRowKeepsAcyclicIff(nbs: Notebooks, id: Id, row: Notebook)
    requires Acyclic(nbs)
    ensures Acyclic(nbs[id := row]) <==> NotAbove(nbs, id, row)
  {
    AsRootKeepsAcyclic(nbs, id, row);
    SetParentKeepsAcyclicIff(AsRoot(nbs, id, row), id, row.parentId);
    assert WithParent(AsRoot(nbs, id, row), id, row.parentId) == nbs[id := row];
  }

  /** The condition for one step of interleaved requests. A rename is in it: it saves the parent it has read. */
  ghost predicate KeepsForest(s: State, e: Event)
    requires Enabled(s, e)
  {
    match e
    case CreateNotebook(id, name, parentId, userId) =>
      NotAbove(s.notebooks, id, Notebook(name, parentId, userId, false))
    case SaveName(_) => NotAbove(s.notebooks, SavedId(s, e), SavedCopy(s, e).(deleted := false))
    case SaveParent(_) => NotAbove(s.notebooks, SavedId(s, e), SavedCopy(s, e).(deleted := false))
    case _ => true
  }

  /** Each step of interleaved requests keeps the notebooks a forest exactly when what it writes is not above itself. */
  lemma StepKeepsForestIff(s: State, e: Event)
    requires Acyclic(s.notebooks) && Enabled(s, e)
    ensures Acyclic(Apply(s, e).notebooks) <==> KeepsForest(s, e)
  {
    match e
    case CreateNotebook(id, name, parentId, userId) =>
      SaveRowKeepsAcyclicIff(s.notebooks, id, Notebook(name, parentId, userId, false));
    case SaveName(_) =>
      SaveRowKeepsAcyclicIff(s.notebooks, SavedId(s, e), SavedCopy(s, e).(deleted := false));
    case SaveParent(_) =>
      SaveRowKeepsAcyclicIff(s.notebooks, SavedId(s, e), SavedCopy(s, e).(deleted := false));
    case DeleteNotebook(_) => FewerEdgesKeepAcyclic(s.notebooks, Apply(s, e).notebooks);
    case _ =>
  }

  ghost predicate ForestRun(s: State, events: seq<Event>)
    requires IsRun(s, events)
    decreases |events|
  {
    events == [] || (KeepsForest(s, events[0]) && ForestRun(Apply(s, events[0]), events[1..]))
  }

  lemma {:induction false} InterleavedRunKeepsForest(s: State, events: seq<Event>)
    requires Acyclic(s.notebooks) && IsRun(s, events) && ForestRun(s, events)
    ensures Acyclic(After(s, events).notebooks)
    decreases |events|
  {
    if events != [] {
      StepKeepsForestIff(s, events[0]);
      InterleavedRunKeepsForest(Apply(s, events[0]), events[1..]);
    }
  }

  /**
   A rename can close a cycle, and no request moves a notebook into its own subtree: while the rename
   of 1, a child of 2, waits for its save, 1 becomes a root and 2 its child; then the save restores the
   parent it has read.
   */
  lemma RenameCanCloseCycle(owner: Id)
    ensures
      exists s, op ::
        Reachable(s) && Acyclic(s.notebooks) && op in s.ops && s.ops[op].SavingName?
        && !Acyclic(Apply(s, SaveName(op)).notebooks)
  {
    ReachesSelf(Initial);
    var s1 := ReachStep(Initial, Initial, CreateNotebook(2, "b", None, owner));
    var s2 := ReachStep(Initial, s1, CreateNotebook(1, "a", Some(2), owner));
    var s3 := ReachStep(Initial, s2, ReadForRename(0, 1, owner, "c"));
    var s4 := ReachMoved(s3, 1, owner, None);
    var s5 := ReachMoved(s4, 2, owner, Some(1));
    assert s5.ops[0] == SavingName(1, Notebook("c", Some(2), owner, false));
    SaveClosesCycle(s5, owner);
  }

  /** A notebook moved by a request that nothing disturbs. */
  lemma ReachMoved(s: State, id: Id, owner: Id, parentId: Option<Id>) returns (t: State)
    requires Reachable(s) && NotebookVisible(s, id, owner) && 9 !in s.ops
    requires parentId.Some? ==> NotebookVisible(s, parentId.value, owner)
    ensures Reachable(t) && t == s.(notebooks := WithParent(s.notebooks, id, parentId))
  {
    var s1 := ReachStep(Initial, s, ReadForReparent(9, id, owner, parentId));
    t := ReachStep(Initial, s1, SaveParent(9));
    assert t.ops == s.ops;
  }

  lemma SaveClosesCycle(s: State, owner: Id)
    requires Reachable(s)
    requires s.notebooks.Keys == {1, 2}
    requires s.notebooks[1] == Notebook("a", None, owner, false)
    requires s.notebooks[2] == Notebook("b", Some(1), owner, false)
    requires 0 in s.ops && s.ops[0] == SavingName(1, Notebook("c", Some(2), owner, false))
    ensures
      exists t, op ::
        Reachable(t) && Acyclic(t.notebooks) && op in t.ops && t.ops[op].SavingName?
        && !Acyclic(Apply(t, SaveName(op)).notebooks)
  {
    OneEdgeIsAcyclic(s.notebooks);
    var after := Apply(s, SaveName(0)).notebooks;
    assert Up(after, 1) == Some(2) && Up(after, 2) == Some(1);
    assert IsPath(after, [1, 2, 1]) && [1, 2, 1][0] == Last([1, 2, 1]);
    assert !Acyclic(after);
  }

  lemma OneEdgeIsAcyclic(nbs: Notebooks)
    requires Up(nbs, 2) == Some(1) && forall x :: x != 2 ==> Up(nbs, x) == None
    ensures Acyclic(nbs)
  {
    forall path: seq<Id> | IsPath(nbs, path) && |path| >= 2 ensures path[0] != Last(path) {
      var n := |path|;
      assert Up(nbs, path[0]) == Some(path[1]);
      assert Up(nbs, path[n - 2]) == Some(path[n - 2 + 1]);
    }
  }

  // ---------------------------------------------------------------- deletion and breadcrumbs

  lemma DeleteCutsChain(nbs: Notebooks, d: Id, start: Id, path: seq<Id>, j: nat)
    requires d in nbs && !nbs[d].deleted
    requires IsChain(nbs, start, path) && start != d
    requires if d in path then j < |path| && path[j] == d && d !in path[..j] else j == |path|
    ensures 0 < j && IsChain(Deleted(nbs, d), start, path[..j])
  {
    var after := Deleted(nbs, d);
    forall k | 0 <= k < j ensures path[k] != d {
      if d in path {
        assert path[k] == path[..j][k];
      }
    }
    forall k | 0 <= k < j - 1 ensures Up(after, path[..j][k]) == Some(path[..j][k + 1]) {
      assert Up(nbs, path[k]) == Some(path[k + 1]);
      DeletedUp(nbs, d, path[k]);
    }
    DeletedUp(nbs, d, path[j - 1]);
    if d in path {
      assert Up(nbs, path[j - 1]) == Some(path[j - 1 + 1]);
    }
  }

  /** The position of a crumb. */
  predicate CrumbAt(crumbs: seq<Crumb>, id: Id, i: nat) {
    i < |crumbs| && crumbs[i].id == id
  }

  /**
   Deleting a notebook turns every breadcrumb that goes through it into the part
   strictly after it, and leaves every other breadcrumb as it was.
   */
  lemma DeleteAndBreadcrumbs(nbs: Notebooks, d: Id, owner: Id, notebookId: Id, userId: Id,
                             before: seq<Crumb>, after: seq<Crumb>)
    requires Acyclic(nbs) && Visible(nbs, d, owner) && notebookId != d
    requires IsBreadcrumb(nbs, notebookId, userId, before)
    requires IsBreadcrumb(Deleted(nbs, d), notebookId, userId, after)
    ensures forall i :: CrumbAt(before, d, i) ==> after == before[i + 1..]
    ensures (forall i :: !CrumbAt(before, d, i)) ==> after == before
  {
    if Visible(nbs, notebookId, userId) {
      var path: seq<Id> :| IsChain(nbs, notebookId, path)
                  && (forall k :: 0 <= k < |path| ==> path[k] in nbs) && before == RootFirst(nbs, path);
      AcyclicPathsAreDistinct(nbs, path);
      if d in path {
        var j :| 0 <= j < |path| && path[j] == d;
        assert forall k :: 0 <= k < j ==> path[k] != d;
        DeleteCutsChain(nbs, d, notebookId, path, j);
        CutCrumbs(nbs, d, notebookId, userId, path, j, after);
        OnlyCrumb(nbs, path, j, d);
      } else {
        DeleteCutsChain(nbs, d, notebookId, path, |path|);
        CutCrumbs(nbs, d, notebookId, userId, path, |path|, after);
      }
    }
  }

  /** On a chain without repeats a notebook has one place, counted from the root for crumbs. */
  lemma OnlyCrumb(nbs: Notebooks, path: seq<Id>, j: nat, d: Id)
    requires j < |path| && path[j] == d && forall k :: 0 <= k < |path| ==> path[k] in nbs
    requires forall a, b :: 0 <= a < b < |path| ==> path[a] != path[b]
    ensures CrumbAt(RootFirst(nbs, path), d, |path| - 1 - j)
    ensures forall i :: CrumbAt(RootFirst(nbs, path), d, i) ==> i == |path| - 1 - j
  {
    forall i | CrumbAt(RootFirst(nbs, path), d, i) ensures i == |path| - 1 - j {
      assert path[|path| - 1 - i] == path[j];
    }
  }

  lemma CutCrumbs(nbs: Notebooks, d: Id, notebookId: Id, userId: Id, path: seq<Id>, j: nat, after: seq<Crumb>)
    requires d in nbs && Visible(nbs, notebookId, userId) && notebookId != d
    requires j <= |path| && forall k :: 0 <= k < |path| ==> path[k] in nbs
    requires IsChain(Deleted(nbs, d), notebookId, path[..j])
    requires IsBreadcrumb(Deleted(nbs, d), notebookId, userId, after)
    ensures after == RootFirst(nbs, path)[|path| - j..]
  {
    var rows := Deleted(nbs, d);
    var q: seq<Id> :| IsChain(rows, notebookId, q) && (forall k :: 0 <= k < |q| ==> q[k] in rows)
             && after == RootFirst(rows, q);
    ChainUnique(rows, notebookId, path[..j], q);
    CutNames(nbs, rows, path, j);
  }

  lemma CutNames(nbs: Notebooks, rows: Notebooks, path: seq<Id>, j: nat)
    requires j <= |path| && forall k :: 0 <= k < |path| ==> path[k] in nbs
    requires forall k :: 0 <= k < j ==> path[k] in rows && rows[path[k]].name == nbs[path[k]].name
    ensures RootFirst(rows, path[..j]) == RootFirst(nbs, path)[|path| - j..]
  {
    var part, whole := RootFirst(rows, path[..j]), RootFirst(nbs, path);
    forall i | 0 <= i < j ensures part[i] == whole[|path| - j..][i] {
      assert path[..j][j - 1 - i] == path[j - 1 - i];
    }
  }
}
