/**
 * The shuffled view of music-player.c: `copyPlaylist` makes a deep copy of
 * the list, `displayShuffledPlaylist` runs a Fisher-Yates pass over the
 * copy by swapping song payloads and lists the result.
 *
 * `rand()` is not modelled: the values it returns are the sequence
 * `draws`, one per step, so that the result is a function of the playlist
 * and the draws (`FisherYates`).
 */
module Shuffle {
  import opened Songs
  import opened Playlist

  /** `s` with the elements at `i` and `j` exchanged. */
  function Swap<T>(s: seq<T>, i: nat, j: nat): (r: seq<T>)
    requires i < |s| && j < |s|
    ensures |r| == |s| && r[i] == s[j] && r[j] == s[i]
    ensures forall k :: 0 <= k < |s| && k != i && k != j ==> r[k] == s[k]
  {
    s[i := s[j]][j := s[i]]
  }

  /** A swap rearranges the elements and keeps every one of them. */
  lemma SwapPermutes<T>(s: seq<T>, i: nat, j: nat)
    requires i < |s| && j < |s|
    ensures multiset(Swap(s, i, j)) == multiset(s)
  {
  }

  /**
   * Step `i` of `n` picks `r = i + rand() % (n - i)`: always a position in
   * `i .. n-1`. `rand()` is never negative, and on non-negative operands
   * Dafny's `%` is C's.
   */
  function Draw(i: nat, n: nat, rand: nat): (r: nat)
    requires i < n
    ensures i <= r <= n - 1
  {
    i + rand % (n - i)
  }

  /**
   * The steps `i, i+1, ..` of the pass, for as long as `i < |s| - 1`: swap
   * position `i` with the drawn position.
   */
  function ShuffleFrom<T>(s: seq<T>, draws: seq<nat>, i: nat): (r: seq<T>)
    requires |s| <= |draws| + 1
    ensures |r| == |s|
    decreases |s| - i
  {
    if i + 1 >= |s| then s
    else ShuffleFrom(Swap(s, i, Draw(i, |s|, draws[i])), draws, i + 1)
  }

  /** The pass is a permutation: it holds the same elements, with the same multiplicities. */
  lemma {:induction false} ShufflePermutes<T>(s: seq<T>, draws: seq<nat>, i: nat)
    requires |s| <= |draws| + 1
    ensures multiset(ShuffleFrom(s, draws, i)) == multiset(s)
    decreases |s| - i
  {
    if i + 1 < |s| {
      var r := Draw(i, |s|, draws[i]);
      SwapPermutes(s, i, r);
      ShufflePermutes(Swap(s, i, r), draws, i + 1);
    }
  }

  /**
   * The whole pass over a list of songs. The shuffled playlist holds
   * exactly the songs of the playlist, each as often.
   */
  function FisherYates<T>(s: seq<T>, draws: seq<nat>): (r: seq<T>)
    requires |s| <= |draws| + 1
    ensures |r| == |s| && multiset(r) == multiset(s)
  {
    ShufflePermutes(s, draws, 0);
    ShuffleFrom(s, draws, 0)
  }

  /** With at most one element, the loop body never runs and the order is the input order. */
  lemma ShortListUnchanged<T>(s: seq<T>, draws: seq<nat>)
    requires |s| <= 1
    ensures FisherYates(s, draws) == s
  {
  }

  /** Once past position `i`, the pass never touches positions before `i` again. */
  lemma {:induction false} ShuffleKeepsPrefix<T>(s: seq<T>, draws: seq<nat>, i: nat, k: nat)
    requires |s| <= |draws| + 1
    requires k < i && k < |s|
    ensures ShuffleFrom(s, draws, i)[k] == s[k]
    decreases |s| - i
  {
    if i + 1 < |s| {
      var t := Swap(s, i, Draw(i, |s|, draws[i]));
      ShuffleKeepsPrefix(t, draws, i + 1, k);
    }
  }

  /**
   * `copyPlaylist`: a list of new nodes holding the same songs in the same
   * order; NULL for an empty list. The source nodes are not modified.
   */
  method CopyPlaylist(head: Node?, ghost src: seq<Node>, ghost songs: seq<Song>)
    returns (newHead: Node?, ghost copy: seq<Node>)
    requires Linked(src) && Holds(src, songs) && head == First(src)
    ensures Linked(copy) && Holds(copy, songs) && newHead == First(copy)
    ensures forall k :: 0 <= k < |copy| ==> fresh(copy[k])
  {
    if head == null {
      return null, [];
    }
    var current: Node? := head;
    var newTail: Node? := null;
    newHead := null;
    copy := [];
    while current != null
      invariant |copy| <= |src|
      invariant current == (if |copy| < |src| then src[|copy|] else null)
      invariant Linked(copy) && Holds(copy, songs[..|copy|])
      invariant newHead == First(copy) && newTail == Last(copy)
      invariant forall k :: 0 <= k < |copy| ==> fresh(copy[k])
      decreases |src| - |copy|
    {
      assert current == src[|copy|] && current.song == songs[|copy|];
      assert current.next == Succ(src, |copy|);
      assert songs[..|copy| + 1] == songs[..|copy|] + [current.song];
      newHead, newTail, copy := CopyNode(newHead, newTail, copy, songs[..|copy|], current.song);
      current := current.next;
    }
  }

  /**
   * The loop body of `copyPlaylist`: a new node holding `song`, attached
   * after the last node of the copy so far (or made its head).
   */
  method CopyNode(newHead: Node?, newTail: Node?, ghost copy: seq<Node>, ghost songs: seq<Song>, song: Song)
    returns (head': Node?, tail': Node, ghost copy': seq<Node>)
    requires Linked(copy) && Holds(copy, songs)
    requires newHead == First(copy) && newTail == Last(copy)
    modifies newTail
    ensures copy' == copy + [tail'] && fresh(tail')
    ensures Linked(copy') && Holds(copy', songs + [song])
    ensures head' == First(copy') && tail' == Last(copy')
  {
    var newNode := new Node(song);
    head' := newHead;
    if newHead == null {
      head' := newNode;
    } else {
      newTail.next := newNode;
      newNode.prev := newTail;
    }
    tail' := newNode;
    copy' := copy + [newNode];
    assert Linked(copy') by {
      forall i | 0 <= i < |copy|
        ensures copy[i].next == (if i + 1 < |copy| then copy[i + 1] else newNode)
        ensures copy[i].prev == Pred(copy, i)
      {
        assert old(copy[i].next) == Succ(copy, i) && old(copy[i].prev) == Pred(copy, i);
        if i + 1 < |copy| {
          assert copy[i] != copy[|copy| - 1];
        }
      }
      LinkedAppend(copy, newNode);
    }
    assert Holds(copy', songs + [song]) by {
      forall i | 0 <= i < |copy|
        ensures copy'[i].song == (songs + [song])[i]
      {
        assert old(copy[i].song) == songs[i];
      }
    }
  }

  /**
   * The swap of `displayShuffledPlaylist`: exchange the song payloads of
   * positions `i` and `r` of a linked list, leaving the links alone.
   */
  method SwapSongs(current: Node, swapNode: Node, ghost nodes: seq<Node>, ghost songs: seq<Song>, ghost i: nat, ghost r: nat)
    requires Linked(nodes) && Holds(nodes, songs)
    requires i < |nodes| && r < |nodes| && current == nodes[i] && swapNode == nodes[r]
    modifies current, swapNode
    ensures Linked(nodes) && Holds(nodes, Swap(songs, i, r))
  {
    var temp := current.song;
    current.song := swapNode.song;
    swapNode.song := temp;
    forall k | 0 <= k < |nodes|
      ensures nodes[k].next == Succ(nodes, k) && nodes[k].prev == Pred(nodes, k)
      ensures nodes[k].song == Swap(songs, i, r)[k]
    {
      assert old(nodes[k].next) == Succ(nodes, k) && old(nodes[k].prev) == Pred(nodes, k);
      if k != i && k != r {
        assert nodes[k] != current && nodes[k] != swapNode;
        assert old(nodes[k].song) == songs[k];
      }
    }
  }

  /**
   * One step of the pass in `displayShuffledPlaylist`: draw `r` in
   * `i .. n-1`, walk from the head to position `r`, and swap the songs of
   * positions `i` and `r`, then move on to the next node. The new order is
   * the one `ShuffleFrom` takes its next step with.
   */
  method ShuffleStep(head: Node?, current: Node, ghost nodes: seq<Node>, ghost songs: seq<Song>, i: nat, n: nat, draws: seq<nat>)
    returns (ghost swapped: seq<Song>, next: Node?)
    requires Linked(nodes) && Holds(nodes, songs) && head == First(nodes)
    requires n == |nodes| && i + 1 < n && current == nodes[i] && n <= |draws| + 1
    modifies nodes
    ensures Linked(nodes) && Holds(nodes, swapped)
    ensures swapped == Swap(songs, i, Draw(i, |songs|, draws[i]))
    ensures ShuffleFrom(swapped, draws, i + 1) == ShuffleFrom(songs, draws, i)
    ensures next == nodes[i + 1]
  {
    var r := Draw(i, n, draws[i]);
    var swapNode := Walk(head, nodes, r);
    SwapSongs(current, swapNode, nodes, songs, i, r);
    swapped := Swap(songs, i, r);
    assert current.next == Succ(nodes, i);
    next := current.next;
  }

  /**
   * The loop of `displayShuffledPlaylist` over a list of `n` nodes: steps
   * `0 .. n-2` of the pass, stopping early only if the walk along `next`
   * met NULL, which a linked list of `n` nodes rules out. The nodes end up
   * holding the songs in the order `FisherYates` gives; the links are untouched.
   */
  method ShufflePass(head: Node?, ghost nodes: seq<Node>, ghost songs: seq<Song>, n: int, draws: seq<nat>)
    requires Linked(nodes) && Holds(nodes, songs) && head == First(nodes)
    requires n == |nodes| && n <= |draws| + 1
    modifies nodes
    ensures Linked(nodes) && Holds(nodes, FisherYates(songs, draws))
  {
    ghost var target := FisherYates(songs, draws);
    var current := head;
    ghost var order := songs;
    var i := 0;
    while current != null && i < n - 1
      invariant |order| == n && 0 <= i <= n
      invariant Linked(nodes) && Holds(nodes, order)
      invariant current == (if i < n then nodes[i] else null)
      invariant ShuffleFrom(order, draws, i) == target
      decreases n - i
    {
      order, current := ShuffleStep(head, current, nodes, order, i, n, draws);
      i := i + 1;
    }
    assert ShuffleFrom(order, draws, i) == order;
  }

  /**
   * `displayShuffledPlaylist`: copy the list, run the Fisher-Yates pass
   * over the copy, then list the copy. The listing is the songs in the
   * order `FisherYates` gives; the player and its nodes are not modified
   * (the method has no `modifies` clause).
   */
  method DisplayShuffled(player: MusicPlayer, draws: seq<nat>) returns (shown: seq<Entry>)
    requires player.Valid() && player.numSongs <= |draws| + 1
    ensures shown == Numbered(FisherYates(player.songs, draws))
  {
    var copiedHead;
    ghost var copy;
    copiedHead, copy := CopyPlaylist(player.head, player.nodes, player.songs);
    ShufflePass(copiedHead, copy, player.songs, player.numSongs, draws);
    shown := Listing(copiedHead, copy, FisherYates(player.songs, draws));
  }
}
