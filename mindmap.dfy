/** The data side of the mind map: the two-level tree built from the history
    (grouped by stance, or by the topics of a classification), the label
    truncation applied at each level, the tooltip placement and the drawing
    height.  The D3 layout and the SVG drawing are not modelled. */
module MindMap {
  import opened Wrappers
  import opened Wire
  import opened App

  /** The five stance buckets, in the order their groups are listed. */
  const Stances: seq<string> := ["賛成", "反対", "中立", "条件付き賛成", "条件付き反対"]

  const RootName: string := "会議の\nトピック"

  /** `stanceGroups[stance]`: the position of a stance label among the five
      buckets, or -1 for any other text. */
  function Rank(stance: string): (k: int)
    ensures -1 <= k < |Stances|
    ensures k >= 0 ==> Stances[k] == stance
    ensures k == -1 <==> stance !in Stances
  {
    if stance == Stances[0] then 0
    else if stance == Stances[1] then 1
    else if stance == Stances[2] then 2
    else if stance == Stances[3] then 3
    else if stance == Stances[4] then 4
    else -1
  }

  lemma RankOfStance(k: nat)
    requires k < |Stances|
    ensures Rank(Stances[k]) == k
  {
  }

  // ---------------------------------------------------------------------------
  // Labels

  /** `s.length > n ? s.substring(0, n) + '...' : s`. */
  function Truncate(s: string, n: nat): (t: string)
    ensures |s| <= n ==> t == s
    ensures |s| > n ==> |t| == n + 3 && t[..n] == s[..n] && t[n..] == "..."
  {
    if |s| > n then s[..n] + "..." else s
  }

  /** A leaf's name: its transcript cut at 30 characters. */
  function LeafName(transcript: string): string {
    Truncate(transcript, 30)
  }

  /** The label of a depth-1 node (a stance or a topic name). */
  function BranchLabel(name: string): string {
    Truncate(name, 10)
  }

  /** The five stance labels are short enough to be shown whole. */
  lemma StanceLabelsShownWhole(k: nat)
    requires k < |Stances|
    ensures BranchLabel(Stances[k]) == Stances[k]
  {
  }

  /** The text shown inside a leaf: its name cut again at 8 characters. */
  function LeafLabel(name: string): string {
    Truncate(name, 8)
  }

  /** Cutting at 30 and then at 8 is cutting at 8: a leaf shows the first
      eight characters of the transcript, followed by `...` when longer. */
  lemma LeafLabelOfTranscript(transcript: string)
    ensures LeafLabel(LeafName(transcript)) == Truncate(transcript, 8)
  {
    if |transcript| > 30 {
      var name := LeafName(transcript);
      assert name[..8] == transcript[..8];
    }
  }

  /** A label is the whole text or a prefix of it followed by `...`: it never
      shows a character the text does not have at that position. */
  lemma TruncateIsPrefix(s: string, n: nat)
    ensures |Truncate(s, n)| <= n + 3
    ensures var t := Truncate(s, n);
      forall i :: 0 <= i < |t| && i < n ==> i < |s| && t[i] == s[i]
  {
  }

  // ---------------------------------------------------------------------------
  // The tree

  /** A leaf: the shortened name, the full transcript, its topic and stance. */
  datatype Leaf = Leaf(name: string, fullText: string, topic: string, stance: string)

  datatype Branch =
    | StanceBranch(stance: string, leaves: seq<Leaf>)
    | TopicBranch(name: string, description: string, leaves: seq<Leaf>)

  datatype Tree = Tree(name: string, branches: seq<Branch>)

  datatype ViewMode = StanceView | TopicView

  /** The leaf an utterance becomes in either view. */
  function LeafOf(entry: HistoryEntry): Leaf {
    Leaf(LeafName(entry.transcript), entry.transcript, entry.analysis.topic, entry.analysis.stance)
  }

  /** One element of a stance group: `{ text, topic, index }` (its `id`,
      which the tree never reads, is omitted). */
  datatype StanceNode = StanceNode(text: string, topic: string, index: nat)

  function NodeAt(history: seq<HistoryEntry>, i: nat): StanceNode
    requires i < |history|
  {
    StanceNode(history[i].transcript, history[i].analysis.topic, i)
  }

  /** The group of a stance after `history.forEach`: one node per entry with
      that stance, in history order. */
  function Bucket(history: seq<HistoryEntry>, stance: string): seq<StanceNode> {
    if |history| == 0 then []
    else
      var last := |history| - 1;
      Bucket(history[..last], stance)
        + (if history[last].analysis.stance == stance then [NodeAt(history, last)] else [])
  }

  function Buckets(history: seq<HistoryEntry>): (groups: seq<seq<StanceNode>>)
    ensures |groups| == |Stances|
  {
    seq(|Stances|, k requires 0 <= k < |Stances| => Bucket(history, Stances[k]))
  }

  /** The stance groups filled by pushing each entry onto the group of its
      stance; entries whose stance is not one of the five are skipped. */
  method GroupByStance(history: seq<HistoryEntry>) returns (groups: seq<seq<StanceNode>>)
    ensures groups == Buckets(history)
  {
    groups := [[], [], [], [], []];
    var i := 0;
    while i < |history|
      invariant 0 <= i <= |history|
      invariant |groups| == |Stances|
      invariant forall k :: 0 <= k < |Stances| ==> groups[k] == Bucket(history[..i], Stances[k])
    {
      var k := Rank(history[i].analysis.stance);
      assert history[..i + 1][..i] == history[..i];
      if k >= 0 {
        groups := groups[k := groups[k] + [NodeAt(history, i)]];
      }
      i := i + 1;
      forall k' | 0 <= k' < |Stances|
        ensures groups[k'] == Bucket(history[..i], Stances[k'])
      {
        RankOfStance(k');
      }
    }
    assert history[..i] == history;
  }

  /** Every node of a group stands for an entry of that stance, at its index. */
  lemma {:induction false} BucketSound(history: seq<HistoryEntry>, stance: string, m: nat)
    requires m < |Bucket(history, stance)|
    ensures var node := Bucket(history, stance)[m];
      node.index < |history| && history[node.index].analysis.stance == stance
      && node == NodeAt(history, node.index)
  {
    var last := |history| - 1;
    var front := Bucket(history[..last], stance);
    if m < |front| {
      BucketSound(history[..last], stance, m);
    }
  }

  /** Every entry of the stance is in its group. */
  lemma {:induction false} BucketComplete(history: seq<HistoryEntry>, stance: string, i: nat)
    requires i < |history| && history[i].analysis.stance == stance
    ensures NodeAt(history, i) in Bucket(history, stance)
  {
    var last := |history| - 1;
    if i < last {
      BucketComplete(history[..last], stance, i);
    }
  }

  /** A group lists its entries in history order. */
  lemma {:induction false} BucketOrdered(history: seq<HistoryEntry>, stance: string)
    ensures forall p, q :: 0 <= p < q < |Bucket(history, stance)| ==>
      Bucket(history, stance)[p].index < Bucket(history, stance)[q].index
  {
    if |history| > 0 {
      var last := |history| - 1;
      BucketOrdered(history[..last], stance);
      var front := Bucket(history[..last], stance);
      forall p | 0 <= p < |front|
        ensures front[p].index < last
      {
        BucketSound(history[..last], stance, p);
      }
      var tail := if history[last].analysis.stance == stance then [NodeAt(history, last)] else [];
      var b := Bucket(history, stance);
      assert b == front + tail;
      forall p, q | 0 <= p < q < |b|
        ensures b[p].index < b[q].index
      {
        if q >= |front| {
          assert b[p] == front[p] && front[p].index < last;
          assert b[q] == NodeAt(history, last);
        } else {
          assert b[p] == front[p] && b[q] == front[q];
          assert front[p].index < front[q].index;
        }
      }
    }
  }

  /** The leaves of a stance group. */
  function StanceLeaves(nodes: seq<StanceNode>, stance: string): seq<Leaf> {
    seq(|nodes|, m requires 0 <= m < |nodes| => Leaf(LeafName(nodes[m].text), nodes[m].text, nodes[m].topic, stance))
  }

  /** The stance branches from bucket `k` on: one per non-empty group, in the
      fixed bucket order. */
  function StanceBranches(groups: seq<seq<StanceNode>>, k: nat): (r: seq<Branch>)
    requires |groups| == |Stances| && k <= |Stances|
    ensures forall i :: 0 <= i < |r| ==>
      && r[i].StanceBranch? && k <= Rank(r[i].stance)
      && groups[Rank(r[i].stance)] != []
      && r[i].leaves == StanceLeaves(groups[Rank(r[i].stance)], r[i].stance)
    ensures forall i, j :: 0 <= i < j < |r| ==> Rank(r[i].stance) < Rank(r[j].stance)
    decreases |Stances| - k
  {
    if k == |Stances| then []
    else
      RankOfStance(k);
      (if groups[k] == [] then [] else [StanceBranch(Stances[k], StanceLeaves(groups[k], Stances[k]))])
        + StanceBranches(groups, k + 1)
  }

  /** Every non-empty group from bucket `k` on has its branch. */
  lemma {:induction false} StanceBranchesComplete(groups: seq<seq<StanceNode>>, k: nat, k': nat)
    requires |groups| == |Stances| && k <= k' < |Stances| && groups[k'] != []
    ensures exists i :: (0 <= i < |StanceBranches(groups, k)|
      && StanceBranches(groups, k)[i] == StanceBranch(Stances[k'], StanceLeaves(groups[k'], Stances[k'])))
    decreases |Stances| - k
  {
    var r := StanceBranches(groups, k);
    var target := StanceBranch(Stances[k'], StanceLeaves(groups[k'], Stances[k']));
    var head := if groups[k] == [] then [] else [StanceBranch(Stances[k], StanceLeaves(groups[k], Stances[k]))];
    var tail := StanceBranches(groups, k + 1);
    assert r == head + tail;
    if k == k' {
      assert head == [target];
      assert r[0] == target;
    } else {
      StanceBranchesComplete(groups, k + 1, k');
      var i :| 0 <= i < |tail| && tail[i] == target;
      assert r[|head| + i] == target;
    }
  }

  /** The stance view of a history. */
  function StanceTree(history: seq<HistoryEntry>): Tree {
    Tree(RootName, StanceBranches(Buckets(history), 0))
  }

  /** Every leaf of the stance view is the leaf of an entry whose stance is
      its branch's, and each stance with an entry has a branch. */
  lemma StanceTreeLeaves(history: seq<HistoryEntry>, i: nat, m: nat)
    requires i < |StanceTree(history).branches|
    requires m < |StanceTree(history).branches[i].leaves|
    ensures var b := StanceTree(history).branches[i];
      b.stance in Stances
      && exists j :: 0 <= j < |history| && history[j].analysis.stance == b.stance
                     && b.leaves[m] == LeafOf(history[j])
  {
    var b := StanceTree(history).branches[i];
    var k := Rank(b.stance);
    var group := Bucket(history, Stances[k]);
    assert b.leaves == StanceLeaves(group, b.stance);
    BucketSound(history, Stances[k], m);
    var j := group[m].index;
    assert b.leaves[m] == LeafOf(history[j]);
  }

  /** An entry with one of the five stances appears in the stance view. */
  lemma StanceTreeHasEntry(history: seq<HistoryEntry>, j: nat)
    requires j < |history| && history[j].analysis.stance in Stances
    ensures exists i :: (0 <= i < |StanceTree(history).branches|
      && StanceTree(history).branches[i].stance == history[j].analysis.stance
      && LeafOf(history[j]) in StanceTree(history).branches[i].leaves)
  {
    var s := history[j].analysis.stance;
    var k := Rank(s);
    var groups := Buckets(history);
    var group := Bucket(history, s);
    assert groups[k] == group;
    BucketComplete(history, s, j);
    var m :| 0 <= m < |group| && group[m] == NodeAt(history, j);
    var leaves := StanceLeaves(group, s);
    assert leaves[m] == LeafOf(history[j]);
    StanceBranchesComplete(groups, 0, k);
    var branches := StanceBranches(groups, 0);
    var i :| 0 <= i < |branches| && branches[i] == StanceBranch(s, leaves);
    assert StanceTree(history).branches == branches;
    assert 0 <= i < |branches| && branches[i].stance == s && LeafOf(history[j]) in branches[i].leaves;
  }

  /** `speech_indices.map(index => history[index]).filter(Boolean)`: the
      indices that name an entry, in list order. */
  function InRange(n: nat, indices: seq<int>): (r: seq<nat>)
    ensures |r| <= |indices|
    ensures forall p :: 0 <= p < |r| ==> r[p] < n && r[p] in indices
    ensures forall x :: x in indices && 0 <= x < n ==> x in r
  {
    if |indices| == 0 then []
    else (if 0 <= indices[0] < n then [indices[0] as nat] else []) + InRange(n, indices[1..])
  }

  /** Indices that all name entries are kept as they are, in their order. */
  lemma {:induction false} InRangeKeepsValid(n: nat, indices: seq<int>)
    requires forall p :: 0 <= p < |indices| ==> 0 <= indices[p] < n
    ensures |InRange(n, indices)| == |indices|
    ensures forall p :: 0 <= p < |indices| ==> InRange(n, indices)[p] == indices[p]
  {
    if |indices| > 0 {
      InRangeKeepsValid(n, indices[1..]);
    }
  }

  /** Filtering distributes over concatenation: the indices of each part are
      kept in place, so the kept indices follow the list's order. */
  lemma {:induction false} InRangeAppend(n: nat, a: seq<int>, b: seq<int>)
    ensures InRange(n, a + b) == InRange(n, a) + InRange(n, b)
  {
    if |a| == 0 {
      assert a + b == b;
    } else {
      assert (a + b)[0] == a[0];
      assert (a + b)[1..] == a[1..] + b;
      InRangeAppend(n, a[1..], b);
    }
  }

  /** A single index is kept iff it names an entry. */
  lemma InRangeSingle(n: nat, x: int)
    ensures InRange(n, [x]) == if 0 <= x < n then [x as nat] else []
  {
    assert [x][1..] == [];
  }

  /** The leaves of one topic. */
  function TopicLeaves(history: seq<HistoryEntry>, indices: seq<int>): (leaves: seq<Leaf>)
    ensures |leaves| <= |indices|
  {
    var valid := InRange(|history|, indices);
    seq(|valid|, m requires 0 <= m < |valid| => LeafOf(history[valid[m]]))
  }

  /** The topic view: one branch per topic, in the classification's order. */
  function TopicTree(history: seq<HistoryEntry>, topics: seq<Topic>): (t: Tree)
    ensures |t.branches| == |topics|
    ensures forall i :: 0 <= i < |topics| ==>
      t.branches[i] == TopicBranch(topics[i].name, topics[i].description, TopicLeaves(history, topics[i].speechIndices))
  {
    Tree(RootName, seq(|topics|, i requires 0 <= i < |topics| =>
      TopicBranch(topics[i].name, topics[i].description, TopicLeaves(history, topics[i].speechIndices))))
  }

  /** No leaf of the topic view refers outside the history: each is the leaf
      of an entry the topic lists. */
  lemma TopicLeavesFromHistory(history: seq<HistoryEntry>, indices: seq<int>, m: nat)
    requires m < |TopicLeaves(history, indices)|
    ensures exists j :: 0 <= j < |history| && j in indices && TopicLeaves(history, indices)[m] == LeafOf(history[j])
  {
    var valid := InRange(|history|, indices);
    assert TopicLeaves(history, indices)[m] == LeafOf(history[valid[m]]);
  }

  /** The tree the effect builds: nothing for an empty history, the topic
      view when it is selected and the classification has topics, and the
      stance view otherwise. */
  method BuildTree(history: seq<HistoryEntry>, classification: Option<TopicClassification>, mode: ViewMode)
    returns (tree: Option<Tree>)
    ensures |history| == 0 ==> tree.None?
    ensures |history| > 0 && mode == TopicView && classification.Some? && classification.value.topics.Some? ==>
      tree == Some(TopicTree(history, classification.value.topics.value))
    ensures |history| > 0 && !(mode == TopicView && classification.Some? && classification.value.topics.Some?) ==>
      tree == Some(StanceTree(history))
  {
    if |history| == 0 {
      return None;
    }
    if mode == TopicView && classification.Some? && classification.value.topics.Some? {
      tree := Some(TopicTree(history, classification.value.topics.value));
    } else {
      var groups := GroupByStance(history);
      tree := Some(Tree(RootName, StanceBranches(groups, 0)));
    }
  }

  // ---------------------------------------------------------------------------
  // Placement and size

  /** The tooltip's measured size, or 300 by 100 when it has no node. */
  function TooltipSize(measured: Option<(int, int)>): (int, int) {
    measured.GetOr((300, 100))
  }

  /** The placement along one axis, from the pointer's coordinate, the
      box's extent and the window's extent: 10 px after the pointer, moved
      before it when the box would pass the window's extent minus 20, and
      never closer than 10 px to the near edge. */
  function Place(pointer: int, size: int, window: int): (p: int)
    ensures p >= 10
    ensures pointer + 10 + size <= window - 20 ==> p == if pointer >= 0 then pointer + 10 else 10
    ensures pointer + 10 + size > window - 20 ==>
      p == if pointer - size - 10 >= 10 then pointer - size - 10 else 10
  {
    var after := pointer + 10;
    var flipped := if after + size > window - 20 then pointer - size - 10 else after;
    if flipped < 10 then 10 else flipped
  }

  /** A box placed after the pointer that fits ends inside the margin; one
      moved before the pointer and not pushed against the edge lies wholly
      before it, 10 px clear. */
  lemma PlaceKeepsClear(pointer: int, size: int, window: int)
    requires size >= 0
    ensures var p := Place(pointer, size, window);
      && (pointer + 10 + size <= window - 20 && pointer >= 0 ==> p + size <= window - 20)
      && (pointer + 10 + size > window - 20 && p > 10 ==> p + size + 10 == pointer)
      && (p == 10 || p == pointer + 10 || p + size == pointer - 10)
  {
  }

  /** The `mousemove` placement: `Place` on each axis, the left edge from the
      pointer's x, the box's width and the window's width, the top edge from
      the pointer's y, the box's height and the window's height. */
  method TooltipPosition(pageX: int, pageY: int, measured: Option<(int, int)>, windowWidth: int, windowHeight: int)
    returns (left: int, top: int)
    ensures var (w, h) := TooltipSize(measured);
      left == Place(pageX, w, windowWidth) && top == Place(pageY, h, windowHeight)
    ensures left >= 10 && top >= 10
    ensures var (w, h) := TooltipSize(measured);
      && (pageX + 10 + w <= windowWidth - 20 && pageX >= 0 ==> left == pageX + 10 && left + w <= windowWidth - 20)
      && (pageY + 10 + h <= windowHeight - 20 && pageY >= 0 ==> top == pageY + 10 && top + h <= windowHeight - 20)
    // Unless pushed against an edge, the box keeps 10 px clear of the pointer.
    ensures var (w, h) := TooltipSize(measured);
      && (left == 10 || left == pageX + 10 || left + w == pageX - 10)
      && (top == 10 || top == pageY + 10 || top + h == pageY - 10)
    // Flipped to the left (or upwards) and not clamped: wholly before the pointer.
    ensures var (w, h) := TooltipSize(measured);
      && (left > 10 && pageX + 10 + w > windowWidth - 20 ==> left + w < pageX)
      && (top > 10 && pageY + 10 + h > windowHeight - 20 ==> top + h < pageY)
  {
    var (w, h) := TooltipSize(measured);
    left := pageX + 10;
    top := pageY + 10;
    if left + w > windowWidth - 20 {
      left := pageX - w - 10;
    }
    if top + h > windowHeight - 20 {
      top := pageY - h - 10;
    }
    if left < 10 {
      left := 10;
    }
    if top < 10 {
      top := 10;
    }
  }

  /** The drawing is 80 px per utterance and never less than 600 px high. */
  function SvgHeight(entries: nat): (height: int)
    ensures height >= 600 && height >= entries * 80
    ensures height == 600 || height == entries * 80
  {
    if entries * 80 > 600 then entries * 80 else 600
  }
}
