/**
 * The playlist picker's track count (components/PlaylistSelector.tsx): how
 * many of a node's track references the collection can resolve, a folder
 * summing its children with `reduce`.
 *
 * The count is tied to an independent description: the number of known ids
 * among all track references in the leaves of the subtree, in tree order.
 */
module PlaylistSelector {
  import opened Text
  import opened Collection

  /** `countTracksInNode`. */
  function CountTracksInNode(node: PlaylistNode, trackById: map<string, Track>): nat
    decreases node
  {
    if node.kind == Playlist then |KnownIds(node.trackIds, trackById)|
    else SumFrom(0, node.children, trackById)
  }

  /** `nodes.reduce((sum, c) => sum + countTracksInNode(c, trackById), acc)`, left to right. */
  function SumFrom(acc: nat, nodes: seq<PlaylistNode>, trackById: map<string, Track>): nat
    decreases nodes
  {
    if nodes == [] then acc
    else SumFrom(acc + CountTracksInNode(nodes[0], trackById), nodes[1..], trackById)
  }

  /** Every track reference in the leaves under `node`, in tree order, repeats kept. */
  function LeafIds(node: PlaylistNode): seq<string>
    decreases node
  {
    if node.kind == Playlist then node.trackIds else ForestIds(node.children)
  }

  function ForestIds(nodes: seq<PlaylistNode>): seq<string>
    decreases nodes
  {
    if nodes == [] then [] else LeafIds(nodes[0]) + ForestIds(nodes[1..])
  }

  /** The known ids of two runs of references are those of each, one after the other. */
  lemma {:induction false} KnownIdsConcat(a: seq<string>, b: seq<string>, trackById: map<string, Track>)
    ensures KnownIds(a + b, trackById) == KnownIds(a, trackById) + KnownIds(b, trackById)
  {
    if a == [] {
      assert a + b == b;
    } else {
      KnownIdsConcat(a[1..], b, trackById);
      ConcatSplit(a, b);
      var head := if a[0] in trackById then [a[0]] else [];
      ConcatAssoc(head, KnownIds(a[1..], trackById), KnownIds(b, trackById));
    }
  }

  /** The count of a node is the number of references under it that the map knows. */
  lemma {:induction false} CountIsKnownLeafIds(node: PlaylistNode, trackById: map<string, Track>)
    ensures CountTracksInNode(node, trackById) == |KnownIds(LeafIds(node), trackById)|
    decreases node, 1
  {
    if node.kind == Folder {
      SumFromIsKnownForestIds(0, node.children, trackById);
    }
  }

  /** The fold adds the known references of the whole forest to its start value. */
  lemma {:induction false} SumFromIsKnownForestIds(acc: nat, nodes: seq<PlaylistNode>, trackById: map<string, Track>)
    ensures SumFrom(acc, nodes, trackById) == acc + |KnownIds(ForestIds(nodes), trackById)|
    decreases nodes, 0
  {
    if nodes != [] {
      CountIsKnownLeafIds(nodes[0], trackById);
      SumFromIsKnownForestIds(acc + CountTracksInNode(nodes[0], trackById), nodes[1..], trackById);
      KnownIdsConcat(LeafIds(nodes[0]), ForestIds(nodes[1..]), trackById);
    }
  }

  /** The count never exceeds the number of track references in the subtree's playlists. */
  lemma CountAtMostReferences(node: PlaylistNode, trackById: map<string, Track>)
    ensures CountTracksInNode(node, trackById) <= |LeafIds(node)|
  {
    CountIsKnownLeafIds(node, trackById);
  }

  /** An id occurs among the counted references exactly as often as under the node, if the map knows it. */
  lemma CountedOccurrences(node: PlaylistNode, trackById: map<string, Track>, id: string)
    ensures var ids := LeafIds(node);
      multiset(KnownIds(ids, trackById))[id] == if id in trackById then multiset(ids)[id] else 0
  {
    KnownIdsCounts(LeafIds(node), trackById, id);
  }

  /** A folder counts the sum of its children's counts; an empty folder counts 0. */
  lemma {:induction false} FolderCountIsSum(node: PlaylistNode, trackById: map<string, Track>, k: nat)
    requires node.kind == Folder && k <= |node.children|
    ensures SumFrom(0, node.children[..k], trackById) + SumFrom(0, node.children[k..], trackById)
            == CountTracksInNode(node, trackById)
  {
    var cs := node.children;
    SumFromIsKnownForestIds(0, cs, trackById);
    SumFromIsKnownForestIds(0, cs[..k], trackById);
    SumFromIsKnownForestIds(0, cs[k..], trackById);
    ForestIdsConcat(cs[..k], cs[k..]);
    assert cs[..k] + cs[k..] == cs;
    KnownIdsConcat(ForestIds(cs[..k]), ForestIds(cs[k..]), trackById);
  }

  lemma {:induction false} ForestIdsConcat(a: seq<PlaylistNode>, b: seq<PlaylistNode>)
    ensures ForestIds(a + b) == ForestIds(a) + ForestIds(b)
  {
    if a == [] {
      assert a + b == b;
    } else {
      ForestIdsConcat(a[1..], b);
      ConcatSplit(a, b);
      ConcatAssoc(LeafIds(a[0]), ForestIds(a[1..]), ForestIds(b));
    }
  }

  /**
   * For a playlist, the count is the length of what `resolvePlaylistTracks`
   * returns for it.
   */
  method LeafCountIsResolvedLength(node: PlaylistNode, trackById: map<string, Track>) returns (tracks: seq<Track>)
    requires node.kind == Playlist
    ensures |tracks| == CountTracksInNode(node, trackById)
    ensures forall t :: t in tracks ==> t in trackById.Values
  {
    tracks := ResolvePlaylistTracks(node, trackById);
    ghost var known := KnownIds(node.trackIds, trackById);
    forall t | t in tracks ensures t in trackById.Values {
      var k :| 0 <= k < |tracks| && tracks[k] == t;
      assert trackById[known[k]] == t;
    }
  }
}
