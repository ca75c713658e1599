/** Orphan comments: comment nodes among a node's children that are attached
    to no other node. The visitor prints them in two places: before a child,
    the comments between that child and the nearest earlier non-comment
    sibling; at the end of a node, the comments after its last non-comment
    child. Both rules first sort the children by begin position. */
module Orphans {
  import opened Wrappers
  import opened Syntax
  import opened EmitterSpec
  import opened Render

  /** A child node as these rules see it: its identity (the visitor compares
      references), its begin position (line and column, as one ordered
      number) and, for a comment node, the comment. */
  datatype Node = Node(id: nat, begin: int, comment: Option<Comment>)

  predicate IsComment(n: Node) {
    n.comment.Some?
  }

  const IndexNotFound: string := "My index not found!!! "

  predicate SortedByBegin(ns: seq<Node>) {
    forall i, j :: 0 <= i < j < |ns| ==> ns[i].begin <= ns[j].begin
  }

  predicate AllComments(ns: seq<Node>) {
    forall i :: 0 <= i < |ns| ==> IsComment(ns[i])
  }

  // ----- sortByBeginPosition ----------------------------------------------

  /** Puts `n` before the first node that does not begin earlier. */
  function Insert(n: Node, ns: seq<Node>): (r: seq<Node>)
    ensures |r| == |ns| + 1
  {
    if |ns| == 0 then [n]
    else if n.begin <= ns[0].begin then [n] + ns
    else [ns[0]] + Insert(n, ns[1..])
  }

  /** sortByBeginPosition, a stable sort by begin position. */
  function SortByBegin(ns: seq<Node>): (r: seq<Node>)
    ensures |r| == |ns|
  {
    if |ns| == 0 then [] else Insert(ns[0], SortByBegin(ns[1..]))
  }

  /** The nodes that begin at `b`, in their order. */
  function At(ns: seq<Node>, b: int): seq<Node> {
    if |ns| == 0 then []
    else (if ns[0].begin == b then [ns[0]] else []) + At(ns[1..], b)
  }

  lemma {:induction false} InsertSorted(n: Node, ns: seq<Node>)
    requires SortedByBegin(ns)
    ensures SortedByBegin(Insert(n, ns))
    ensures |ns| > 0 ==> Insert(n, ns)[0].begin == if n.begin <= ns[0].begin then n.begin else ns[0].begin
  {
    if |ns| > 0 && n.begin > ns[0].begin {
      InsertSorted(n, ns[1..]);
    }
  }

  lemma {:induction false} InsertPermutes(n: Node, ns: seq<Node>)
    ensures multiset(Insert(n, ns)) == multiset(ns) + multiset{n}
  {
    if |ns| > 0 && n.begin > ns[0].begin {
      InsertPermutes(n, ns[1..]);
      assert ns == [ns[0]] + ns[1..];
    }
  }

  lemma {:induction false} InsertAt(n: Node, ns: seq<Node>, b: int)
    ensures At(Insert(n, ns), b) == (if n.begin == b then [n] else []) + At(ns, b)
  {
    if |ns| == 0 {
    } else if n.begin <= ns[0].begin {
      assert ([n] + ns)[1..] == ns;
    } else {
      var r := Insert(n, ns[1..]);
      var rest := At(ns[1..], b);
      InsertAt(n, ns[1..], b);
      assert ([ns[0]] + r)[1..] == r;
      if ns[0].begin == b {
        // n begins later than ns[0], so it is not at b
        assert At(Insert(n, ns), b) == [ns[0]] + rest;
      } else if n.begin == b {
        assert At(Insert(n, ns), b) == [n] + rest;
      } else {
        assert At(Insert(n, ns), b) == [] + rest;
      }
    }
  }

  /** The sorted list is ordered by begin position. */
  lemma {:induction false} SortByBeginSorted(ns: seq<Node>)
    ensures SortedByBegin(SortByBegin(ns))
  {
    if |ns| > 0 {
      SortByBeginSorted(ns[1..]);
      InsertSorted(ns[0], SortByBegin(ns[1..]));
    }
  }

  /** The sorted list holds the same nodes. */
  lemma {:induction false} SortByBeginPermutes(ns: seq<Node>)
    ensures multiset(SortByBegin(ns)) == multiset(ns)
  {
    if |ns| > 0 {
      SortByBeginPermutes(ns[1..]);
      InsertPermutes(ns[0], SortByBegin(ns[1..]));
      assert ns == [ns[0]] + ns[1..];
    }
  }

  /** The sort is stable: nodes that begin at the same position keep their
      order. */
  lemma {:induction false} SortByBeginStable(ns: seq<Node>, b: int)
    ensures At(SortByBegin(ns), b) == At(ns, b)
  {
    if |ns| > 0 {
      SortByBeginStable(ns[1..], b);
      InsertAt(ns[0], SortByBegin(ns[1..]), b);
    }
  }

  lemma SortedSlice(ns: seq<Node>, lo: nat, hi: nat)
    requires SortedByBegin(ns) && lo <= hi <= |ns|
    ensures SortedByBegin(ns[lo..hi])
  {
    forall i, j | 0 <= i < j < hi - lo
      ensures ns[lo..hi][i].begin <= ns[lo..hi][j].begin
    {
      assert ns[lo..hi][i] == ns[lo + i] && ns[lo..hi][j] == ns[lo + j];
    }
  }

  // ----- positions ---------------------------------------------------------

  /** The position of the child: the last index holding its identity, -1 when
      none does. */
  function LastIndexOf(ns: seq<Node>, id: nat): (i: int)
    ensures -1 <= i < |ns|
  {
    if |ns| == 0 then -1
    else if ns[|ns| - 1].id == id then |ns| - 1
    else LastIndexOf(ns[..|ns| - 1], id)
  }

  lemma {:induction false} LastIndexOfFinds(ns: seq<Node>, id: nat)
    ensures LastIndexOf(ns, id) >= 0 ==> ns[LastIndexOf(ns, id)].id == id
    ensures forall j :: LastIndexOf(ns, id) < j < |ns| ==> ns[j].id != id
  {
    if |ns| > 0 && ns[|ns| - 1].id != id {
      LastIndexOfFinds(ns[..|ns| - 1], id);
    }
  }

  /** The index of the nearest non-comment node before `pos`, -1 when all
      nodes before it are comments. */
  function PreviousNonComment(ns: seq<Node>, pos: nat): (p: int)
    requires pos <= |ns|
    ensures -1 <= p < pos
  {
    if pos == 0 then -1
    else if !IsComment(ns[pos - 1]) then pos - 1
    else PreviousNonComment(ns, pos - 1)
  }

  lemma {:induction false} PreviousNonCommentFinds(ns: seq<Node>, pos: nat)
    requires pos <= |ns|
    ensures PreviousNonComment(ns, pos) >= 0 ==> !IsComment(ns[PreviousNonComment(ns, pos)])
    ensures forall j :: PreviousNonComment(ns, pos) < j < pos ==> IsComment(ns[j])
  {
    if pos > 0 && IsComment(ns[pos - 1]) {
      PreviousNonCommentFinds(ns, pos - 1);
    }
  }

  /** The length of the maximal run of comments at the end of `ns`. */
  function TrailingComments(ns: seq<Node>): (k: nat)
    ensures k <= |ns|
  {
    if |ns| == 0 || !IsComment(ns[|ns| - 1]) then 0
    else TrailingComments(ns[..|ns| - 1]) + 1
  }

  /** One step of the backward scan: the run at the end of the first
      `|ns| - c` nodes. */
  lemma TrailingCommentsStep(ns: seq<Node>, c: nat)
    requires c < |ns|
    ensures TrailingComments(ns[..|ns| - c])
         == if IsComment(ns[|ns| - 1 - c]) then TrailingComments(ns[..|ns| - c - 1]) + 1 else 0
  {
    assert ns[..|ns| - c][..|ns| - c - 1] == ns[..|ns| - c - 1];
  }

  lemma {:induction false} TrailingCommentsMaximal(ns: seq<Node>)
    ensures AllComments(ns[|ns| - TrailingComments(ns)..])
    ensures TrailingComments(ns) < |ns| ==> !IsComment(ns[|ns| - 1 - TrailingComments(ns)])
  {
    if |ns| > 0 && IsComment(ns[|ns| - 1]) {
      var front := ns[..|ns| - 1];
      TrailingCommentsMaximal(front);
      var k := TrailingComments(front);
      assert ns[|ns| - (k + 1)..] == front[|front| - k..] + [ns[|ns| - 1]];
    }
  }

  // ----- the two rules -----------------------------------------------------

  /** printOrphanCommentsBeforeThisChildNode: the comment nodes printed before
      `node`, whose parent's children are `siblings` (None for no parent). */
  function OrphansBefore(node: Node, siblings: Option<seq<Node>>): Result<seq<Node>> {
    if IsComment(node) || siblings.None? then Success([])
    else
      var everything := SortByBegin(siblings.value);
      var pos := LastIndexOf(everything, node.id);
      if pos == -1 then Failure(IndexNotFound)
      else Success(everything[PreviousNonComment(everything, pos) + 1..pos])
  }

  /** printOrphanCommentsEnding: the comment nodes printed after the last
      non-comment child of a node with these children. */
  function OrphansEnding(children: seq<Node>): seq<Node> {
    var everything := SortByBegin(children);
    everything[|everything| - TrailingComments(everything)..]
  }

  /** Printing a run of comment nodes, from index `i` on. */
  function PrintComments(e: EmitterState, ns: seq<Node>, printComments: bool, i: nat): (r: EmitterState)
    requires AllComments(ns) && i <= |ns|
    ensures r.level == e.level && r.marks == e.marks && e.buf <= r.buf
    decreases |ns| - i
  {
    if i == |ns| then e
    else PrintComments(RenderComment(e, ns[i].comment.value, printComments), ns, printComments, i + 1)
  }

  /** What printOrphanCommentsBeforeThisChildNode does to the printer. */
  function RenderOrphansBefore(e: EmitterState, node: Node, siblings: Option<seq<Node>>, printComments: bool): Result<EmitterState> {
    match OrphansBefore(node, siblings)
    case Failure(m) => Failure(m)
    case Success(ns) =>
      OrphansBeforeAreComments(node, siblings);
      Success(PrintComments(e, ns, printComments, 0))
  }

  /** What printOrphanCommentsEnding does to the printer. */
  function RenderOrphansEnding(e: EmitterState, children: seq<Node>, printComments: bool): EmitterState {
    OrphansEndingAreComments(children);
    PrintComments(e, OrphansEnding(children), printComments, 0)
  }

  // ----- properties --------------------------------------------------------

  /** Only comment nodes are printed: the "Expected comment" exception cannot
      be raised. */
  lemma OrphansBeforeAreComments(node: Node, siblings: Option<seq<Node>>)
    ensures OrphansBefore(node, siblings).Success? ==> AllComments(OrphansBefore(node, siblings).value)
  {
    if !IsComment(node) && siblings.Some? {
      var everything := SortByBegin(siblings.value);
      var pos := LastIndexOf(everything, node.id);
      if pos != -1 {
        PreviousNonCommentFinds(everything, pos);
      }
    }
  }

  lemma OrphansEndingAreComments(children: seq<Node>)
    ensures AllComments(OrphansEnding(children))
  {
    TrailingCommentsMaximal(SortByBegin(children));
  }

  /** The exception is raised exactly when the node is not a comment, has a
      parent, and is not among its parent's children. */
  lemma OrphansBeforeFails(node: Node, siblings: Option<seq<Node>>)
    ensures OrphansBefore(node, siblings).Failure?
        <==> !IsComment(node) && siblings.Some? && forall n :: n in siblings.value ==> n.id != node.id
    ensures OrphansBefore(node, siblings).Failure? ==> OrphansBefore(node, siblings).error == IndexNotFound
  {
    if !IsComment(node) && siblings.Some? {
      var everything := SortByBegin(siblings.value);
      SortByBeginPermutes(siblings.value);
      LastIndexOfFinds(everything, node.id);
      assert forall n :: n in siblings.value <==> n in everything by {
        forall n ensures n in siblings.value <==> n in everything {
          assert n in siblings.value <==> n in multiset(siblings.value);
          assert n in everything <==> n in multiset(everything);
        }
      }
      if LastIndexOf(everything, node.id) == -1 {
        assert forall j :: 0 <= j < |everything| ==> everything[j].id != node.id;
      } else {
        assert everything[LastIndexOf(everything, node.id)] in siblings.value;
      }
    }
  }

  /** Before a child, the printed nodes are exactly the comments that follow
      the nearest earlier non-comment sibling in position order, up to the
      child: all comments, in ascending position order, with a non-comment
      (or the start of the list) just before them and the child right after. */
  lemma OrphansBeforeAreTheGap(node: Node, siblings: seq<Node>)
    requires !IsComment(node) && OrphansBefore(node, Some(siblings)).Success?
    ensures var everything := SortByBegin(siblings);
            var ns := OrphansBefore(node, Some(siblings)).value;
            var pos := LastIndexOf(everything, node.id);
            && 0 <= pos - |ns| && everything[pos - |ns|..pos] == ns
            && everything[pos].id == node.id
            && (pos - |ns| > 0 ==> !IsComment(everything[pos - |ns| - 1]))
            && AllComments(ns)
            && SortedByBegin(ns)
  {
    var everything := SortByBegin(siblings);
    var pos := LastIndexOf(everything, node.id);
    var p := PreviousNonComment(everything, pos);
    LastIndexOfFinds(everything, node.id);
    PreviousNonCommentFinds(everything, pos);
    SortByBeginSorted(siblings);
    SortedSlice(everything, p + 1, pos);
    OrphansBeforeAreComments(node, Some(siblings));
  }

  /** At the end, the printed nodes are the longest run of comments that
      closes the sorted children: all comments, in ascending position order,
      preceded by a non-comment unless they are all the children. */
  lemma OrphansEndingIsTrailingRun(children: seq<Node>)
    ensures var everything := SortByBegin(children);
            var ns := OrphansEnding(children);
            && |ns| <= |everything| && everything[|everything| - |ns|..] == ns
            && AllComments(ns)
            && (|ns| < |everything| ==> !IsComment(everything[|everything| - |ns| - 1]))
            && SortedByBegin(ns)
  {
    var everything := SortByBegin(children);
    TrailingCommentsMaximal(everything);
    SortByBeginSorted(children);
    var k := TrailingComments(everything);
    SortedSlice(everything, |everything| - k, |everything|);
    assert OrphansEnding(children) == everything[|everything| - k..];
  }

  /** Comment nodes and nodes without a parent print nothing before them, and
      nothing ends a node without children. */
  lemma OrphansNothingToPrint(node: Node, siblings: Option<seq<Node>>, e: EmitterState, printComments: bool)
    ensures IsComment(node) || siblings.None? ==> RenderOrphansBefore(e, node, siblings, printComments) == Success(e)
    ensures RenderOrphansEnding(e, [], printComments) == e
  {
  }

  /** With comments switched off, the orphan rules print only the javadoc
      comments among the nodes they select. */
  lemma {:induction false} PrintCommentsWithoutComments(e: EmitterState, ns: seq<Node>, i: nat)
    requires AllComments(ns) && i <= |ns|
    requires forall j :: i <= j < |ns| ==> !ns[j].comment.value.JavadocComment?
    ensures PrintComments(e, ns, false, i) == e
    decreases |ns| - i
  {
    if i < |ns| {
      PrintCommentsWithoutComments(e, ns, i + 1);
    }
  }
}
