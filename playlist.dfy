/**
 * The playlist of music-player.c: a doubly linked list of `Node`s owned by
 * the `MusicPlayer` record, which also holds the playback state.
 *
 * The nodes are described by a ghost sequence `nodes`, in list order, and
 * the songs they hold by a ghost sequence `songs`. `Linked` says that the
 * `next` and `prev` pointers of the nodes are exactly the ones this order
 * gives, so walking from `head` along `next` visits `nodes` in order and
 * stops after the last one.
 */
module Playlist {
  import opened Songs
  import opened Audio

  /** `struct Node`: a song payload and the two links. */
  class Node {
    var song: Song
    var next: Node?
    var prev: Node?

    /** `createNode`: a node holding `song`, linked to nothing. */
    constructor (song: Song)
      ensures this.song == song && next == null && prev == null
    {
      this.song := song;
      next := null;
      prev := null;
    }
  }

  /** The node after position `i` in list order, NULL after the last. */
  function Succ(nodes: seq<Node>, i: int): Node?
    requires 0 <= i < |nodes|
  {
    if i + 1 < |nodes| then nodes[i + 1] else null
  }

  /** The node before position `i` in list order, NULL before the first. */
  function Pred(nodes: seq<Node>, i: int): Node?
    requires 0 <= i < |nodes|
  {
    if i == 0 then null else nodes[i - 1]
  }

  /** The `next`/`prev` pointers of `nodes` form one doubly linked list in sequence order. */
  ghost predicate Linked(nodes: seq<Node>)
    reads nodes
  {
    (forall i, j :: 0 <= i < j < |nodes| ==> nodes[i] != nodes[j]) &&
    (forall i {:trigger nodes[i].next} :: 0 <= i < |nodes| ==> nodes[i].next == Succ(nodes, i)) &&
    (forall i {:trigger nodes[i].prev} :: 0 <= i < |nodes| ==> nodes[i].prev == Pred(nodes, i))
  }

  /** Attaching a new node after the last node of a linked list gives a linked list. */
  lemma LinkedAppend(ns: seq<Node>, x: Node)
    requires x !in ns
    requires forall i, j :: 0 <= i < j < |ns| ==> ns[i] != ns[j]
    requires forall i :: 0 <= i < |ns| ==> ns[i].next == (if i + 1 < |ns| then ns[i + 1] else x)
    requires forall i :: 0 <= i < |ns| ==> ns[i].prev == Pred(ns, i)
    requires x.next == null && x.prev == Last(ns)
    ensures Linked(ns + [x])
  {
    var all := ns + [x];
    forall i | 0 <= i < |all|
      ensures all[i].next == Succ(all, i) && all[i].prev == Pred(all, i)
    {
      if i < |ns| {
        assert all[i] == ns[i];
        assert ns[i].next == (if i + 1 < |ns| then ns[i + 1] else x);
        assert ns[i].prev == Pred(ns, i);
        assert i + 1 < |ns| ==> all[i + 1] == ns[i + 1];
        assert i + 1 == |ns| ==> all[i + 1] == x;
        assert i > 0 ==> all[i - 1] == ns[i - 1];
      } else {
        assert all[i] == x;
        assert i > 0 ==> all[i - 1] == ns[i - 1];
      }
    }
    forall i, j | 0 <= i < j < |all|
      ensures all[i] != all[j]
    {
      assert all[i] == ns[i];
      if j < |ns| {
        assert all[j] == ns[j];
      } else {
        assert all[j] == x;
      }
    }
  }

  /** The nodes hold `songs`, one each, in order. */
  ghost predicate Holds(nodes: seq<Node>, songs: seq<Song>)
    reads nodes
  {
    |nodes| == |songs| && forall i :: 0 <= i < |nodes| ==> nodes[i].song == songs[i]
  }

  /** The head pointer of a list with these nodes. */
  function First(nodes: seq<Node>): Node?
  {
    if nodes == [] then null else nodes[0]
  }

  /** The tail pointer of a list with these nodes. */
  function Last(nodes: seq<Node>): Node?
  {
    if nodes == [] then null else nodes[|nodes| - 1]
  }

  /** One printed line of a listing: `"%d. %s by %s (%s)"`. */
  datatype Entry = Entry(index: int, song: Song)

  /** Songs numbered from 1 in the order given. */
  function Numbered(songs: seq<Song>): (entries: seq<Entry>)
  {
    seq(|songs|, i requires 0 <= i < |songs| => Entry(i + 1, songs[i]))
  }

  /**
   * The listing loop of `displayPlaylist` and of `displayShuffledPlaylist`:
   * walk from `head` along `next`, numbering from 1, until NULL. It visits
   * exactly the nodes of the list, in order.
   */
  method Listing(head: Node?, ghost nodes: seq<Node>, ghost songs: seq<Song>) returns (shown: seq<Entry>)
    requires Linked(nodes) && Holds(nodes, songs) && head == First(nodes)
    ensures |shown| == |songs|
    ensures forall k :: 0 <= k < |shown| ==> shown[k] == Entry(k + 1, songs[k])
  {
    var current := head;
    var index := 1;
    shown := [];
    while current != null
      invariant 1 <= index <= |nodes| + 1
      invariant current == (if index - 1 < |nodes| then nodes[index - 1] else null)
      invariant |shown| == index - 1
      invariant forall k :: 0 <= k < |shown| ==> shown[k] == Entry(k + 1, songs[k])
      decreases |nodes| + 1 - index
    {
      shown := shown + [Entry(index, current.song)];
      assert current.next == Succ(nodes, index - 1);
      current := current.next;
      index := index + 1;
    }
  }

  /**
   * Follow `next` from `head` for `steps` links (the walks to the selected
   * song in `main` and to the swap partner in `displayShuffledPlaylist`).
   * Within the list the walk never meets NULL and ends at position `steps`.
   */
  method Walk(head: Node?, ghost nodes: seq<Node>, steps: nat) returns (node: Node)
    requires Linked(nodes) && head == First(nodes) && steps < |nodes|
    ensures node == nodes[steps]
  {
    var current := head;
    var j := 0;
    while j < steps
      invariant 0 <= j <= steps && current == nodes[j]
    {
      assert current.next == Succ(nodes, j);
      current := current.next;
      j := j + 1;
    }
    node := current;
  }

  /**
   * What `playSong` leaves in `player->device`, given the pointer before and
   * the handle it would open: the old pointer when the file cannot be
   * opened, NULL when the device cannot, and otherwise that handle.
   */
  function DeviceAfterPlay(device: DevicePtr, outcome: PlayOutcome, h: nat): (r: DevicePtr)
    ensures r == device || r == Null || r == Handle(h)
    ensures r == Handle(h) <== outcome.BufferUnavailable? || outcome.Played?
    ensures outcome.DeviceUnavailable? ==> r == Null
    ensures outcome.FileUnreadable? ==> r == device
  {
    match outcome
    case FileUnreadable => device
    case DeviceUnavailable => Null
    case BufferUnavailable => Handle(h)
    case Played => Handle(h)
  }

  /** The live devices after `stopSong` closes what `device` points to, if anything. */
  function LiveAfterStop(device: DevicePtr, live: set<nat>): set<nat>
  {
    if device.Handle? then live - {device.id} else live
  }

  /** The `MusicPlayer` record. */
  class MusicPlayer {
    var head: Node?
    var tail: Node?
    var numSongs: int
    var currentSong: Node?
    var isPlaying: int
    var playlistName: string
    var device: DevicePtr

    /** The list nodes, from `head` to `tail`. */
    ghost var nodes: seq<Node>
    /** The songs of the playlist, in insertion order. */
    ghost var songs: seq<Song>

    /**
     * The list invariant: the nodes are linked in order, `head` and `tail`
     * are the first and last of them (both NULL exactly when the list is
     * empty), `numSongs` counts them, and `currentSong` is NULL or one of them.
     * So `numSongs` is the number of songs in the playlist.
     */
    ghost predicate Valid()
      reads this, nodes
      ensures Valid() ==> numSongs == |songs|
    {
      Linked(nodes) && Holds(nodes, songs) &&
      head == First(nodes) && tail == Last(nodes) && numSongs == |nodes| &&
      (currentSong == null || currentSong in nodes) &&
      (isPlaying == 0 || isPlaying == 1)
    }

    /** The initialised player at the start of `main`: no songs, nothing selected, nothing playing. */
    constructor (name: string)
      ensures Valid()
      ensures nodes == [] && songs == [] && playlistName == name
      ensures currentSong == null && isPlaying == 0 && device == Null
    {
      head, tail, currentSong := null, null, null;
      numSongs := 0;
      isPlaying := 0;
      playlistName := name;
      device := Null;
      nodes, songs := [], [];
    }

    /**
     * `addSong`: append `song` at the tail. The earlier nodes stay in place
     * and a non-empty list keeps its head; the frame leaves the playback
     * fields and the name alone.
     */
    method AddSong(song: Song)
      requires Valid()
      modifies this`head, this`tail, this`numSongs, this`nodes, this`songs, tail
      ensures Valid()
      ensures songs == old(songs) + [song]
      ensures numSongs == old(numSongs) + 1
      ensures nodes == old(nodes) + [tail] && fresh(tail)
      ensures old(head) != null ==> head == old(head)
    {
      ghost var ns := nodes;
      var newNode := new Node(song);
      if head == null {
        head := newNode;
        tail := newNode;
      } else {
        newNode.prev := tail;
        tail.next := newNode;
        tail := newNode;
      }
      numSongs := numSongs + 1;
      nodes := nodes + [newNode];
      songs := songs + [song];
      assert Linked(nodes) by {
        forall i | 0 <= i < |ns|
          ensures ns[i].next == (if i + 1 < |ns| then ns[i + 1] else newNode)
          ensures ns[i].prev == Pred(ns, i)
        {
          assert old(ns[i].next) == Succ(ns, i) && old(ns[i].prev) == Pred(ns, i);
          if i + 1 < |ns| {
            assert ns[i] != ns[|ns| - 1];
          }
        }
        LinkedAppend(ns, newNode);
      }
      assert Holds(nodes, songs) by {
        forall i | 0 <= i < |nodes|
          ensures nodes[i].song == songs[i]
        {
          if i < |ns| {
            assert nodes[i] == ns[i] && old(ns[i].song) == old(songs)[i];
          }
        }
      }
    }

    /** `displayPlaylist`: every song, numbered from 1, in insertion order. */
    method DisplayPlaylist() returns (shown: seq<Entry>)
      requires Valid()
      ensures shown == Numbered(songs)
    {
      shown := Listing(head, nodes, songs);
    }

    /**
     * `playSong` on the selected file, with the libsndfile and libao calls
     * reduced to `outcome`. Every device it opens it also closes, but the
     * closed handle stays in `device`.
     */
    method PlaySong(backend: Backend, outcome: PlayOutcome)
      requires backend.Valid()
      modifies this`device, backend
      ensures backend.Valid()
      ensures device == DeviceAfterPlay(old(device), outcome, old(backend.issued))
      ensures backend.live == old(backend.live)
      ensures backend.issued == old(backend.issued) + (if outcome.BufferUnavailable? || outcome.Played? then 1 else 0)
      ensures device.Handle? && device != old(device) ==> device.id !in backend.live
    {
      match outcome {
        case FileUnreadable =>
        case DeviceUnavailable =>
          device := Null;
        case BufferUnavailable =>
          var h := backend.OpenLive();
          device := Handle(h);
          var _ := backend.Close(h);
        case Played =>
          var h := backend.OpenLive();
          device := Handle(h);
          var _ := backend.Close(h);
      }
    }

    /**
     * `stopSong`: close the device if the pointer is not NULL, then set it
     * to NULL. `staleClose` is true when the handle closed had already been
     * closed.
     */
    method StopSong(backend: Backend) returns (staleClose: bool)
      requires backend.Valid()
      modifies this`device, backend
      ensures backend.Valid()
      ensures device == Null
      ensures staleClose <==> old(device).Handle? && old(device).id !in old(backend.live)
      ensures backend.live == LiveAfterStop(old(device), old(backend.live))
      ensures backend.issued == old(backend.issued)
    {
      staleClose := false;
      if device != Null {
        var wasLive := backend.Close(device.id);
        staleClose := !wasLive;
        device := Null;
      }
    }
  }

  /** `head`, `tail` and `numSongs` agree on emptiness. */
  lemma EmptyAgrees(player: MusicPlayer)
    requires player.Valid()
    ensures player.head == null <==> player.numSongs == 0
    ensures player.tail == null <==> player.numSongs == 0
  {
  }
}
