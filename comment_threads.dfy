/**
 * Comment threading and vote tally of `getUserComments`
 * (app/profiles/actions.ts): a flat, oldest-first list of comment rows and a
 * flat list of vote rows become a forest of comment nodes carrying like and
 * dislike counts and the viewer's own vote.
 *
 * The source links JavaScript objects by reference (`parent.replies.push`).
 * Here every node lives in an arena (`Forest.nodes`, one node per input row,
 * at the row's index) and a replies list holds arena indices, so the aliasing
 * of the source is kept exactly: pushing onto a parent's replies is visible
 * from every place that parent is reachable.
 */
module CommentThreads {
  import opened Text

  type CommentId = int

  datatype Author = Author(id: Option<string>, name: Option<string>, avatar: Option<string>)

  /** A `comments` row as selected, ordered by `created_at` ascending. */
  datatype CommentRow = CommentRow(
    id: CommentId,
    createdAt: Option<int>,
    content: string,
    parentId: Option<CommentId>,
    author: Author)

  datatype VoteKind = Like | Dislike

  /** A `comment_votes` row. */
  datatype VoteRow = VoteRow(commentId: CommentId, userId: string, kind: VoteKind)

  /** What the first loop stores in `voteMap` for one comment. */
  datatype Tally = Tally(likes: nat, dislikes: nat, userVote: Option<VoteKind>)

  /** A `CommentType` node; `replies` are indices into the forest's arena. */
  datatype CommentNode = CommentNode(
    id: CommentId,
    profileId: string,
    createdAt: int,
    content: string,
    likes: nat,
    dislikes: nat,
    userVote: Option<VoteKind>,
    replies: seq<nat>,
    author: Author)

  /** The arena of nodes and the returned `topLevel` list. */
  datatype Forest = Forest(nodes: seq<CommentNode>, topLevel: seq<nat>)

  // ---------------------------------------------------------------------------
  // Vote tally

  /** A failed vote fetch reads as an empty vote list. */
  function VotesOrEmpty(voteResponse: Option<seq<VoteRow>>): (votes: seq<VoteRow>)
    ensures voteResponse.None? ==> votes == []
    ensures voteResponse.Some? ==> votes == voteResponse.value
  {
    match voteResponse
    case None => []
    case Some(rows) => rows
  }

  /** Number of rows voting `kind` on comment `id`. */
  function CountVotes(votes: seq<VoteRow>, id: CommentId, kind: VoteKind): (n: nat)
    ensures n <= |votes|
  {
    if votes == [] then 0
    else CountVotes(votes[..|votes| - 1], id, kind)
         + (if votes[|votes| - 1].commentId == id && votes[|votes| - 1].kind == kind then 1 else 0)
  }

  /** Number of rows on comment `id`, whatever their kind. */
  function RowsFor(votes: seq<VoteRow>, id: CommentId): nat {
    if votes == [] then 0
    else RowsFor(votes[..|votes| - 1], id) + (if votes[|votes| - 1].commentId == id then 1 else 0)
  }

  /** The kind of the first row on comment `id` cast by the viewer, if any. */
  function ViewerVote(votes: seq<VoteRow>, id: CommentId, viewer: Option<string>): (r: Option<VoteKind>)
    ensures viewer.None? ==> r.None?
    ensures r.Some? ==> viewer.Some? && exists i :: 0 <= i < |votes| && votes[i] == VoteRow(id, viewer.value, r.value)
                                          && forall j :: 0 <= j < i ==> !(votes[j].commentId == id && votes[j].userId == viewer.value)
    ensures viewer.Some? && r.None? ==> forall i :: 0 <= i < |votes| ==> !(votes[i].commentId == id && votes[i].userId == viewer.value)
  {
    if viewer.None? || votes == [] then None
    else if votes[0].commentId == id && votes[0].userId == viewer.value then Some(votes[0].kind)
    else ViewerVote(votes[1..], id, viewer)
  }

  function TallyOf(votes: seq<VoteRow>, id: CommentId, viewer: Option<string>): Tally {
    Tally(CountVotes(votes, id, Like), CountVotes(votes, id, Dislike), ViewerVote(votes, id, viewer))
  }

  // ---------------------------------------------------------------------------
  // Where each comment lands

  /** The greatest index below `bound` holding a comment with this id: what
      `map.get(id)` returns after the rows before `bound` have been set. */
  function LastIndexOf(cs: seq<CommentRow>, id: CommentId, bound: nat): (r: Option<nat>)
    requires bound <= |cs|
    ensures r.Some? ==> r.value < bound && cs[r.value].id == id
    ensures r.Some? ==> forall j :: r.value < j < bound ==> cs[j].id != id
    ensures r.None? ==> forall j :: 0 <= j < bound ==> cs[j].id != id
  {
    if bound == 0 then None
    else if cs[bound - 1].id == id then Some(bound - 1)
    else LastIndexOf(cs, id, bound - 1)
  }

  datatype Slot = Top | ReplyTo(parent: nat)

  /** The list comment `k` is appended to. As written (`lookupFirst` false) the
      parent is looked up after comment `k` itself was put into the map; the
      corrected order (`lookupFirst` true) looks it up before. */
  function SlotOf(cs: seq<CommentRow>, k: nat, lookupFirst: bool): (s: Slot)
    requires k < |cs|
    ensures s.ReplyTo? ==> s.parent <= k && (lookupFirst ==> s.parent < k)
  {
    match cs[k].parentId
    case None => Top
    case Some(p) =>
      match LastIndexOf(cs, p, if lookupFirst then k else k + 1)
      case None => Top
      case Some(j) => ReplyTo(j)
  }

  /** The comments among the first `n` whose slot is `slot`, oldest first:
      `topLevel` for `Top`, the replies of node `j` for `ReplyTo(j)`. */
  function Placed(cs: seq<CommentRow>, slot: Slot, n: nat, lookupFirst: bool): seq<nat>
    requires n <= |cs|
  {
    if n == 0 then []
    else Placed(cs, slot, n - 1, lookupFirst) + (if SlotOf(cs, n - 1, lookupFirst) == slot then [n - 1] else [])
  }

  /** The node built for row `c` (`transformed`), before any reply is pushed. */
  function NodeOf(profileId: string, c: CommentRow, t: Tally, now: int, replies: seq<nat>): CommentNode {
    CommentNode(c.id, profileId, if c.createdAt.Some? then c.createdAt.value else now,
                c.content, t.likes, t.dislikes, t.userVote, replies, c.author)
  }

  /** The shape of a forest: which node sits in which list. */
  ghost predicate Threaded(f: Forest, cs: seq<CommentRow>, lookupFirst: bool) {
    && |f.nodes| == |cs|
    && f.topLevel == Placed(cs, Top, |cs|, lookupFirst)
    && forall k :: 0 <= k < |cs| ==> f.nodes[k].replies == Placed(cs, ReplyTo(k), |cs|, lookupFirst)
  }

  /** The forest the threading loop produces from `cs`: its shape, and each
      node carrying its row's fields and its comment's tally. */
  ghost predicate IsForestOf(f: Forest, profileId: string, cs: seq<CommentRow>, votes: seq<VoteRow>,
                             viewer: Option<string>, now: int, lookupFirst: bool)
  {
    && Threaded(f, cs, lookupFirst)
    && forall k :: 0 <= k < |cs| ==>
         f.nodes[k] == NodeOf(profileId, cs[k], TallyOf(votes, cs[k].id, viewer), now,
                              Placed(cs, ReplyTo(k), |cs|, lookupFirst))
  }

  lemma {:induction false} NoRepliesYet(cs: seq<CommentRow>, j: nat, n: nat, lookupFirst: bool)
    requires n <= |cs| && n <= j
    ensures Placed(cs, ReplyTo(j), n, lookupFirst) == []
  {
    if n > 0 {
      NoRepliesYet(cs, j, n - 1, lookupFirst);
    }
  }

  /** What the lookup in `map` finds, in terms of the slot of comment `i`. */
  lemma SlotStep(cs: seq<CommentRow>, i: nat, lookupFirst: bool, parent: Option<nat>)
    requires i < |cs|
    requires parent.None? ==> cs[i].parentId.None? || LastIndexOf(cs, cs[i].parentId.value, if lookupFirst then i else i + 1).None?
    requires parent.Some? ==> cs[i].parentId.Some? && LastIndexOf(cs, cs[i].parentId.value, if lookupFirst then i else i + 1) == parent
    ensures parent.None? ==> SlotOf(cs, i, lookupFirst) == Top
    ensures parent.Some? ==> SlotOf(cs, i, lookupFirst) == ReplyTo(parent.value)
  {
  }

  // ---------------------------------------------------------------------------
  // The two loops of getUserComments

  /** `voteMap` after the first loop: every loaded comment has an entry, and
      every entry is its comment's tally. */
  predicate VoteMapOf(voteMap: map<CommentId, Tally>, cs: seq<CommentRow>, votes: seq<VoteRow>, viewer: Option<string>) {
    && (forall k :: 0 <= k < |cs| ==> cs[k].id in voteMap)
    && (forall id :: id in voteMap ==> voteMap[id] == TallyOf(votes, id, viewer))
  }

  /** First loop: `voteMap` from each comment id to its tally. */
  method BuildVoteMap(cs: seq<CommentRow>, votes: seq<VoteRow>, viewer: Option<string>)
    returns (voteMap: map<CommentId, Tally>)
    ensures VoteMapOf(voteMap, cs, votes, viewer)
  {
    voteMap := map[];
    var i := 0;
    while i < |cs|
      invariant 0 <= i <= |cs|
      invariant forall k :: 0 <= k < i ==> cs[k].id in voteMap
      invariant forall id :: id in voteMap ==> voteMap[id] == TallyOf(votes, id, viewer)
    {
      var c := cs[i];
      var likes := CountVotes(votes, c.id, Like);
      var dislikes := CountVotes(votes, c.id, Dislike);
      var userVote := ViewerVote(votes, c.id, viewer);
      voteMap := voteMap[c.id := Tally(likes, dislikes, userVote)];
      i := i + 1;
    }
  }

  /** The whole of `getUserComments`, as written: a failed comment fetch gives
      an empty result, a failed vote fetch gives zero tallies, and each comment
      is put into the map before its parent is looked up. */
  method GetUserComments(profileId: string, commentResponse: Option<seq<CommentRow>>,
                         voteResponse: Option<seq<VoteRow>>, viewer: Option<string>, now: int)
    returns (forest: Forest)
    ensures commentResponse.None? ==> forest == Forest([], [])
    ensures commentResponse.Some? ==>
      IsForestOf(forest, profileId, commentResponse.value, VotesOrEmpty(voteResponse), viewer, now, false)
    ensures voteResponse.None? ==> forall k :: 0 <= k < |forest.nodes| ==>
      forest.nodes[k].likes == 0 && forest.nodes[k].dislikes == 0 && forest.nodes[k].userVote.None?
  {
    if commentResponse.None? {
      return Forest([], []);
    }
    var cs := commentResponse.value;
    var votes := VotesOrEmpty(voteResponse);
    var voteMap := BuildVoteMap(cs, votes, viewer);
    forest := Thread(profileId, cs, votes, voteMap, viewer, now, false);
  }

  /** `getUserComments` with the parent looked up before the comment is put
      into the map, so that no comment can become its own reply. */
  method GetUserCommentsFixed(profileId: string, commentResponse: Option<seq<CommentRow>>,
                              voteResponse: Option<seq<VoteRow>>, viewer: Option<string>, now: int)
    returns (forest: Forest)
    ensures commentResponse.None? ==> forest == Forest([], [])
    ensures commentResponse.Some? ==>
      IsForestOf(forest, profileId, commentResponse.value, VotesOrEmpty(voteResponse), viewer, now, true)
  {
    if commentResponse.None? {
      return Forest([], []);
    }
    var cs := commentResponse.value;
    var votes := VotesOrEmpty(voteResponse);
    var voteMap := BuildVoteMap(cs, votes, viewer);
    forest := Thread(profileId, cs, votes, voteMap, viewer, now, true);
  }

  /** The first `n` nodes of the arena after the first `n` comments. */
  ghost predicate NodesUpTo(nodes: seq<CommentNode>, profileId: string, cs: seq<CommentRow>, votes: seq<VoteRow>,
                            viewer: Option<string>, now: int, lookupFirst: bool, n: nat)
    requires n <= |cs|
  {
    && |nodes| == n
    && forall k :: 0 <= k < n ==> NodeAt(nodes[k], profileId, cs, votes, viewer, now, lookupFirst, k, n)
  }

  /** Node `k` as it stands after the first `n` comments. */
  ghost predicate NodeAt(node: CommentNode, profileId: string, cs: seq<CommentRow>, votes: seq<VoteRow>,
                         viewer: Option<string>, now: int, lookupFirst: bool, k: nat, n: nat)
    requires k < n <= |cs|
  {
    node == NodeOf(profileId, cs[k], TallyOf(votes, cs[k].id, viewer), now, Placed(cs, ReplyTo(k), n, lookupFirst))
  }

  /** `map` after the first `n` comments: each id to the last index holding it. */
  ghost predicate IndexUpTo(index: map<CommentId, nat>, cs: seq<CommentRow>, n: nat)
    requires n <= |cs|
  {
    && (forall id :: id in index <==> LastIndexOf(cs, id, n).Some?)
    && (forall id :: id in index ==> index[id] == LastIndexOf(cs, id, n).value)
  }

  lemma TopLevelStep(cs: seq<CommentRow>, i: nat, lookupFirst: bool)
    requires i < |cs|
    ensures Placed(cs, Top, i + 1, lookupFirst) == Placed(cs, Top, i, lookupFirst) + (if SlotOf(cs, i, lookupFirst).Top? then [i] else [])
  {
  }

  lemma IndexStep(index: map<CommentId, nat>, cs: seq<CommentRow>, i: nat)
    requires i < |cs| && IndexUpTo(index, cs, i)
    ensures IndexUpTo(index[cs[i].id := i], cs, i + 1)
  {
  }

  /** The state of the second loop after the first `n` comments: `topLevel`,
      the arena and `map` as the threading has them at that point. */
  ghost predicate ThreadedUpTo(nodes: seq<CommentNode>, topLevel: seq<nat>, index: map<CommentId, nat>,
                               profileId: string, cs: seq<CommentRow>, votes: seq<VoteRow>,
                               viewer: Option<string>, now: int, lookupFirst: bool, n: nat)
  {
    && n <= |cs|
    && topLevel == Placed(cs, Top, n, lookupFirst)
    && NodesUpTo(nodes, profileId, cs, votes, viewer, now, lookupFirst, n)
    && IndexUpTo(index, cs, n)
  }

  /** Appending node `i` and pushing it onto its slot keeps the arena in step. */
  lemma NodesStep(nodes: seq<CommentNode>, profileId: string, cs: seq<CommentRow>, votes: seq<VoteRow>,
                  viewer: Option<string>, now: int, lookupFirst: bool, i: nat)
    requires i < |cs| && NodesUpTo(nodes, profileId, cs, votes, viewer, now, lookupFirst, i)
    ensures var grown := nodes + [NodeOf(profileId, cs[i], TallyOf(votes, cs[i].id, viewer), now, [])];
      match SlotOf(cs, i, lookupFirst)
      case Top => NodesUpTo(grown, profileId, cs, votes, viewer, now, lookupFirst, i + 1)
      case ReplyTo(p) =>
        NodesUpTo(grown[p := grown[p].(replies := grown[p].replies + [i])], profileId, cs, votes, viewer, now, lookupFirst, i + 1)
  {
    var slot := SlotOf(cs, i, lookupFirst);
    var grown := nodes + [NodeOf(profileId, cs[i], TallyOf(votes, cs[i].id, viewer), now, [])];
    var next := if slot.Top? then grown else grown[slot.parent := grown[slot.parent].(replies := grown[slot.parent].replies + [i])];
    forall k | 0 <= k < i + 1
      ensures NodeAt(next[k], profileId, cs, votes, viewer, now, lookupFirst, k, i + 1)
    {
      if k < i {
        assert NodeAt(nodes[k], profileId, cs, votes, viewer, now, lookupFirst, k, i);
        NodeGrows(nodes[k], profileId, cs, votes, viewer, now, lookupFirst, k, i);
      } else {
        NoRepliesYet(cs, i, i, lookupFirst);
        assert Placed(cs, ReplyTo(i), i + 1, lookupFirst) == if slot == ReplyTo(i) then [i] else [];
      }
    }
  }

  /** Comment `i` adds itself to the replies of node `k` exactly when `k` is its slot. */
  lemma NodeGrows(node: CommentNode, profileId: string, cs: seq<CommentRow>, votes: seq<VoteRow>,
                  viewer: Option<string>, now: int, lookupFirst: bool, k: nat, i: nat)
    requires k < i < |cs| && NodeAt(node, profileId, cs, votes, viewer, now, lookupFirst, k, i)
    ensures NodeAt(if SlotOf(cs, i, lookupFirst) == ReplyTo(k) then node.(replies := node.replies + [i]) else node,
                   profileId, cs, votes, viewer, now, lookupFirst, k, i + 1)
  {
    assert Placed(cs, ReplyTo(k), i + 1, lookupFirst)
        == Placed(cs, ReplyTo(k), i, lookupFirst) + (if SlotOf(cs, i, lookupFirst) == ReplyTo(k) then [i] else []);
  }

  /** One pass of the second loop: build the node of comment `i`, register it
      in `map` and append it either to `topLevel` or to its parent's replies. */
  method PlaceComment(profileId: string, cs: seq<CommentRow>, votes: seq<VoteRow>,
                      voteMap: map<CommentId, Tally>, viewer: Option<string>, now: int, lookupFirst: bool,
                      i: nat, nodes: seq<CommentNode>, topLevel: seq<nat>, index: map<CommentId, nat>)
    returns (nodes': seq<CommentNode>, topLevel': seq<nat>, index': map<CommentId, nat>)
    requires i < |cs|
    requires VoteMapOf(voteMap, cs, votes, viewer)
    requires ThreadedUpTo(nodes, topLevel, index, profileId, cs, votes, viewer, now, lookupFirst, i)
    ensures ThreadedUpTo(nodes', topLevel', index', profileId, cs, votes, viewer, now, lookupFirst, i + 1)
  {
    var c := cs[i];
    var tally := voteMap[c.id];
    var transformed := NodeOf(profileId, c, tally, now, []);
    NodesStep(nodes, profileId, cs, votes, viewer, now, lookupFirst, i);
    nodes' := nodes + [transformed];
    IndexStep(index, cs, i);
    index' := index[c.id := i];
    var lookIn := if lookupFirst then index else index';
    var parent: Option<nat> := None;
    if c.parentId.Some? && c.parentId.value in lookIn {
      parent := Some(lookIn[c.parentId.value]);
    }
    SlotStep(cs, i, lookupFirst, parent);
    TopLevelStep(cs, i, lookupFirst);
    topLevel' := topLevel;
    if parent.None? {
      topLevel' := topLevel + [i];
    } else {
      var p := parent.value;
      nodes' := nodes'[p := nodes'[p].(replies := nodes'[p].replies + [i])];
    }
  }

  /** Second loop of `getUserComments`, over the comments oldest first: every
      comment gets its node, its entry in `map` and its place in a list. */
  method PlaceAll(profileId: string, cs: seq<CommentRow>, votes: seq<VoteRow>,
                  voteMap: map<CommentId, Tally>, viewer: Option<string>, now: int, lookupFirst: bool)
    returns (nodes: seq<CommentNode>, topLevel: seq<nat>, index: map<CommentId, nat>)
    requires VoteMapOf(voteMap, cs, votes, viewer)
    ensures ThreadedUpTo(nodes, topLevel, index, profileId, cs, votes, viewer, now, lookupFirst, |cs|)
  {
    nodes, topLevel, index := [], [], map[];
    var i := 0;
    NothingPlacedYet(profileId, cs, votes, viewer, now, lookupFirst);
    while i < |cs|
      invariant i <= |cs|
      invariant ThreadedUpTo(nodes, topLevel, index, profileId, cs, votes, viewer, now, lookupFirst, i)
    {
      nodes, topLevel, index := PlaceComment(profileId, cs, votes, voteMap, viewer, now, lookupFirst,
                                             i, nodes, topLevel, index);
      i := i + 1;
    }
  }

  /** The threaded comments `getUserComments` returns: the top-level list over
      the arena of nodes the second loop built. */
  method Thread(profileId: string, cs: seq<CommentRow>, votes: seq<VoteRow>,
                voteMap: map<CommentId, Tally>, viewer: Option<string>, now: int, lookupFirst: bool)
    returns (forest: Forest)
    requires VoteMapOf(voteMap, cs, votes, viewer)
    ensures IsForestOf(forest, profileId, cs, votes, viewer, now, lookupFirst)
  {
    var nodes, topLevel, index := PlaceAll(profileId, cs, votes, voteMap, viewer, now, lookupFirst);
    forest := Forest(nodes, topLevel);
    ForestComplete(nodes, topLevel, index, profileId, cs, votes, viewer, now, lookupFirst);
  }

  /** Before the first comment: no nodes, an empty map and an empty list. */
  lemma NothingPlacedYet(profileId: string, cs: seq<CommentRow>, votes: seq<VoteRow>,
                         viewer: Option<string>, now: int, lookupFirst: bool)
    ensures ThreadedUpTo([], [], map[], profileId, cs, votes, viewer, now, lookupFirst, 0)
  {
  }

  /** Once every comment is placed, the loop's state is the forest. */
  lemma ForestComplete(nodes: seq<CommentNode>, topLevel: seq<nat>, index: map<CommentId, nat>,
                       profileId: string, cs: seq<CommentRow>, votes: seq<VoteRow>,
                       viewer: Option<string>, now: int, lookupFirst: bool)
    requires ThreadedUpTo(nodes, topLevel, index, profileId, cs, votes, viewer, now, lookupFirst, |cs|)
    ensures IsForestOf(Forest(nodes, topLevel), profileId, cs, votes, viewer, now, lookupFirst)
  {
  }

  // ---------------------------------------------------------------------------
  // What the threading guarantees

  predicate StrictlyIncreasing(s: seq<nat>) {
    forall a, b :: 0 <= a < b < |s| ==> s[a] < s[b]
  }

  /** A list holds exactly the comments whose slot it is. */
  lemma {:induction false} PlacedMembers(cs: seq<CommentRow>, slot: Slot, n: nat, lookupFirst: bool, k: nat)
    requires n <= |cs|
    ensures k in Placed(cs, slot, n, lookupFirst) <==> k < n && SlotOf(cs, k, lookupFirst) == slot
  {
    if n > 0 {
      PlacedMembers(cs, slot, n - 1, lookupFirst, k);
    }
  }

  /** Every list keeps the comments in their original, oldest-first order. */
  lemma {:induction false} PlacedOrdered(cs: seq<CommentRow>, slot: Slot, n: nat, lookupFirst: bool)
    requires n <= |cs|
    ensures StrictlyIncreasing(Placed(cs, slot, n, lookupFirst))
    ensures forall a :: 0 <= a < |Placed(cs, slot, n, lookupFirst)| ==> Placed(cs, slot, n, lookupFirst)[a] < n
  {
    if n > 0 {
      PlacedOrdered(cs, slot, n - 1, lookupFirst);
    }
  }

  /** Each comment is shown exactly once: in `topLevel` or in the replies of a
      single node, never in both and never twice in one list. */
  lemma PlacedOnce(f: Forest, cs: seq<CommentRow>, lookupFirst: bool, k: nat)
    requires Threaded(f, cs, lookupFirst)
    requires k < |cs|
    ensures k in f.topLevel || exists j :: 0 <= j < |cs| && k in f.nodes[j].replies
    ensures k in f.topLevel ==> forall j :: 0 <= j < |cs| ==> k !in f.nodes[j].replies
    ensures forall j1, j2 :: 0 <= j1 < |cs| && 0 <= j2 < |cs| && k in f.nodes[j1].replies && k in f.nodes[j2].replies ==> j1 == j2
    ensures StrictlyIncreasing(f.topLevel)
    ensures forall j :: 0 <= j < |cs| ==> StrictlyIncreasing(f.nodes[j].replies)
  {
    PlacedMembers(cs, Top, |cs|, lookupFirst, k);
    PlacedOrdered(cs, Top, |cs|, lookupFirst);
    forall j | 0 <= j < |cs|
      ensures k in f.nodes[j].replies <==> SlotOf(cs, k, lookupFirst) == ReplyTo(j)
      ensures StrictlyIncreasing(f.nodes[j].replies)
    {
      PlacedMembers(cs, ReplyTo(j), |cs|, lookupFirst, k);
      PlacedOrdered(cs, ReplyTo(j), |cs|, lookupFirst);
    }
    var slot := SlotOf(cs, k, lookupFirst);
    if slot.ReplyTo? {
      assert k in f.nodes[slot.parent].replies;
    }
  }

  /** Where a comment lands: under the latest earlier-loaded comment whose id is
      its `parent_id`, or at top level when it has no parent or the parent is
      not among the comments loaded so far (an orphan is promoted). As written
      the comment itself already counts as loaded. */
  lemma SlotMeaning(cs: seq<CommentRow>, k: nat, lookupFirst: bool)
    requires k < |cs|
    ensures var bound := if lookupFirst then k else k + 1;
      match SlotOf(cs, k, lookupFirst)
      case Top =>
        cs[k].parentId.None? || forall m :: 0 <= m < bound ==> cs[m].id != cs[k].parentId.value
      case ReplyTo(j) =>
        && j < bound && cs[k].parentId == Some(cs[j].id)
        && forall m :: j < m < bound ==> cs[m].id != cs[j].id
  {
  }

  /** A path down the forest: a top-level node, then a reply of it, and so on. */
  ghost predicate IsPath(f: Forest, path: seq<nat>) {
    && |path| >= 1
    && path[0] in f.topLevel
    && forall m :: 0 <= m < |path| - 1 ==> path[m] < |f.nodes| && path[m + 1] in f.nodes[path[m]].replies
  }

  /** Comment `k` is displayed: some path from the top level reaches it. */
  ghost predicate Shown(f: Forest, k: nat) {
    exists path :: IsPath(f, path) && path[|path| - 1] == k
  }

  /** As written, a comment whose `parent_id` is its own id is pushed onto its
      own replies: it is not top-level and no path from the top level passes
      through it, so neither it nor anything beneath it is ever displayed. */
  lemma SelfParentHidden(f: Forest, cs: seq<CommentRow>, k: nat)
    requires Threaded(f, cs, false)
    requires k < |cs| && cs[k].parentId == Some(cs[k].id)
    ensures k !in f.topLevel
    ensures forall path, m :: IsPath(f, path) && 0 <= m < |path| ==> path[m] != k
    ensures !Shown(f, k)
  {
    assert SlotOf(cs, k, false) == ReplyTo(k);
    PlacedMembers(cs, Top, |cs|, false, k);
    forall path, m | IsPath(f, path) && 0 <= m < |path|
      ensures path[m] != k
    {
      if path[m] == k {
        var n := m;
        while n > 0
          invariant 0 <= n < |path| && path[n] == k
        {
          PlacedMembers(cs, ReplyTo(path[n - 1]), |cs|, false, k);
          n := n - 1;
        }
        assert false;
      }
    }
  }

  /** The smallest instance: one comment naming itself as parent leaves an
      empty thread as written, and a one-comment thread once corrected. */
  lemma SelfParentExample(f: Forest, g: Forest)
    requires Threaded(f, [CommentRow(7, None, "x", Some(7), Author(None, None, None))], false)
    requires Threaded(g, [CommentRow(7, None, "x", Some(7), Author(None, None, None))], true)
    ensures f.topLevel == [] && f.nodes[0].replies == [0]
    ensures g.topLevel == [0] && g.nodes[0].replies == []
  {
    var cs := [CommentRow(7, None, "x", Some(7), Author(None, None, None))];
    assert LastIndexOf(cs, 7, 1) == Some(0);
    assert SlotOf(cs, 0, false) == ReplyTo(0);
    assert Placed(cs, Top, 1, false) == [];
    assert Placed(cs, ReplyTo(0), 1, false) == [0];
    assert LastIndexOf(cs, 7, 0) == None;
    assert SlotOf(cs, 0, true) == Top;
    assert Placed(cs, Top, 1, true) == [0];
    assert Placed(cs, ReplyTo(0), 1, true) == [];
  }

  /** Corrected, every reply sits under an older comment, so every comment is
      reached from the top level. */
  lemma {:induction false} AllShown(f: Forest, cs: seq<CommentRow>, k: nat)
    requires Threaded(f, cs, true)
    requires k < |cs|
    ensures Shown(f, k)
    decreases k
  {
    match SlotOf(cs, k, true)
    case Top =>
      PlacedMembers(cs, Top, |cs|, true, k);
      assert IsPath(f, [k]);
    case ReplyTo(j) =>
      AllShown(f, cs, j);
      var path :| IsPath(f, path) && path[|path| - 1] == j;
      PlacedMembers(cs, ReplyTo(j), |cs|, true, k);
      PathExtends(f, path, k);
  }

  /** A path followed by a reply of its last node is again a path. */
  lemma PathExtends(f: Forest, path: seq<nat>, k: nat)
    requires IsPath(f, path)
    requires path[|path| - 1] < |f.nodes| && k in f.nodes[path[|path| - 1]].replies
    ensures IsPath(f, path + [k]) && (path + [k])[|path|] == k
  {
    var p := path + [k];
    forall m | 0 <= m < |p| - 1
      ensures p[m] < |f.nodes| && p[m + 1] in f.nodes[p[m]].replies
    {
      if m < |path| - 1 {
        assert p[m] == path[m] && p[m + 1] == path[m + 1];
      }
    }
  }

  /** `comment_count` of `enrichSuspect`: the length of the returned list. */
  function CommentCount(f: Forest): nat {
    |f.topLevel|
  }

  /** A strictly increasing list of indices below `n` has at most `n` entries,
      and exactly `n` only when it holds every index. */
  lemma {:induction false} IncreasingBelow(s: seq<nat>, n: nat)
    requires StrictlyIncreasing(s)
    requires forall a :: 0 <= a < |s| ==> s[a] < n
    ensures |s| <= n
    ensures |s| == n ==> forall k :: 0 <= k < n ==> k in s
  {
    if s != [] {
      var t := s[..|s| - 1];
      IncreasingBelow(t, s[|s| - 1]);
      if |s| == n {
        assert s[|s| - 1] == n - 1;
        forall k | 0 <= k < n
          ensures k in s
        {
          if k < n - 1 {
            assert k in t;
          } else {
            assert s[|s| - 1] == k;
          }
        }
      }
    }
  }

  /** `comment_count` counts threads, not comments: it never exceeds the number
      of comments, and falls short of it as soon as one comment is a reply. */
  lemma CommentCountBounds(f: Forest, cs: seq<CommentRow>, lookupFirst: bool)
    requires Threaded(f, cs, lookupFirst)
    ensures CommentCount(f) <= |cs|
    ensures CommentCount(f) == |cs| <==> forall k :: 0 <= k < |cs| ==> SlotOf(cs, k, lookupFirst) == Top
  {
    PlacedOrdered(cs, Top, |cs|, lookupFirst);
    IncreasingBelow(f.topLevel, |cs|);
    if CommentCount(f) == |cs| {
      forall k | 0 <= k < |cs|
        ensures SlotOf(cs, k, lookupFirst) == Top
      {
        PlacedMembers(cs, Top, |cs|, lookupFirst, k);
      }
    }
    if forall k :: 0 <= k < |cs| ==> SlotOf(cs, k, lookupFirst) == Top {
      TopLevelAll(cs, |cs|, lookupFirst);
    }
  }

  lemma {:induction false} TopLevelAll(cs: seq<CommentRow>, n: nat, lookupFirst: bool)
    requires n <= |cs|
    requires forall k :: 0 <= k < n ==> SlotOf(cs, k, lookupFirst) == Top
    ensures |Placed(cs, Top, n, lookupFirst)| == n
  {
    if n > 0 {
      TopLevelAll(cs, n - 1, lookupFirst);
    }
  }

  /** Every vote row on a comment is either a like or a dislike. */
  lemma {:induction false} LikesPlusDislikes(votes: seq<VoteRow>, id: CommentId)
    ensures CountVotes(votes, id, Like) + CountVotes(votes, id, Dislike) == RowsFor(votes, id)
  {
    if votes != [] {
      LikesPlusDislikes(votes[..|votes| - 1], id);
    }
  }
}
