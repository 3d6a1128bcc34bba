/**
 * What `main` of music-player.c does with the playlist and the player
 * between reading the file and exiting: the loading loop over the lines of
 * `<name>.csv`, and the menu choices that change the player (2, play or
 * stop; 3, stop). Choices 1 and 7 are `DisplayPlaylist` and
 * `DisplayShuffled`.
 *
 * The lines are the strings `fgets` returns, in file order; the song number
 * is the value `atoi` gives for the user's input.
 */
module Menu {
  import opened Songs
  import opened Audio
  import opened Playlist

  /**
   * A line the loader skips without a message: empty, or starting with a
   * newline or a NUL. These are exactly the lines whose C string is empty
   * or starts with a newline.
   */
  predicate IsBlank(line: string)
    ensures IsBlank(line) <==> CString(line) == [] || CString(line)[0] == '\n'
  {
    line == [] || line[0] == '\n' || line[0] == '\0'
  }

  /**
   * The songs the loader appends for `lines`, in file order: for a single
   * line, its song if it is neither blank nor rejected; for more lines, the
   * songs of all but the last, then those of the last.
   */
  function Accepted(lines: seq<string>): (songs: seq<Song>)
    ensures |songs| <= |lines|
    decreases |lines|
  {
    if |lines| == 0 then []
    else if |lines| == 1 then
      (if !IsBlank(lines[0]) && ParseLine(lines[0]).Some? then [ParseLine(lines[0]).value] else [])
    else Accepted(lines[..|lines| - 1]) + Accepted([lines[|lines| - 1]])
  }

  /** The lines the loader reports as unreadable, in file order, built the same way. */
  function Reported(lines: seq<string>): (bad: seq<string>)
    ensures |bad| <= |lines|
    decreases |lines|
  {
    if |lines| == 0 then []
    else if |lines| == 1 then
      (if !IsBlank(lines[0]) && ParseLine(lines[0]).None? then lines else [])
    else Reported(lines[..|lines| - 1]) + Reported([lines[|lines| - 1]])
  }

  /** Appending one line to a file appends its song or its report, and nothing else. */
  lemma LoadSnoc(lines: seq<string>, line: string)
    ensures Accepted(lines + [line]) == Accepted(lines) + Accepted([line])
    ensures Reported(lines + [line]) == Reported(lines) + Reported([line])
  {
    if lines == [] {
      assert lines + [line] == [line];
    } else {
      assert (lines + [line])[..|lines|] == lines;
    }
  }

  /** Every reported line is one of the input lines, not blank, and rejected by the line rule. */
  lemma {:induction false} ReportedAreRejected(lines: seq<string>, k: nat)
    requires k < |Reported(lines)|
    ensures Reported(lines)[k] in lines
    ensures !IsBlank(Reported(lines)[k]) && ParseLine(Reported(lines)[k]).None?
    decreases |lines|
  {
    var earlier, last := lines[..|lines| - 1], lines[|lines| - 1];
    assert lines == earlier + [last];
    LoadSnoc(earlier, last);
    if k < |Reported(earlier)| {
      ReportedAreRejected(earlier, k);
    } else {
      assert Reported(lines)[k] == last;
    }
  }

  /** Loading a file in two parts gives the songs of the first part followed by those of the second. */
  lemma {:induction false} AcceptedConcat(a: seq<string>, b: seq<string>)
    ensures Accepted(a + b) == Accepted(a) + Accepted(b)
    decreases |b|
  {
    if b == [] {
      assert a + b == a;
    } else {
      var b', last := b[..|b| - 1], b[|b| - 1];
      assert b == b' + [last];
      assert a + b == (a + b') + [last];
      LoadSnoc(a + b', last);
      LoadSnoc(b', last);
      AcceptedConcat(a, b');
      AppendAssociates(Accepted(a), Accepted(b'), Accepted([last]));
    }
  }

  /** A non-blank line is either accepted or reported, never both; a blank line is neither. */
  lemma LineAccounted(line: string)
    ensures IsBlank(line) ==> Accepted([line]) == [] && Reported([line]) == []
    ensures !IsBlank(line) ==> (|Accepted([line])| == 1 <==> Reported([line]) == [])
    ensures |Accepted([line])| + |Reported([line])| == (if IsBlank(line) then 0 else 1)
  {
  }

  /**
   * The songs appended and the lines reported together number exactly the
   * non-blank lines; with `LineAccounted` and `LoadSnoc`, each non-blank
   * line is counted once.
   */
  lemma {:induction false} EveryLineAccounted(lines: seq<string>)
    ensures |Accepted(lines)| + |Reported(lines)| == |NonBlank(lines)|
    decreases |lines|
  {
    if lines != [] {
      var earlier, last := lines[..|lines| - 1], lines[|lines| - 1];
      assert lines == earlier + [last];
      LoadSnoc(earlier, last);
      EveryLineAccounted(earlier);
    }
  }

  /** The lines of `lines` that are not blank. */
  function NonBlank(lines: seq<string>): (kept: seq<string>)
    ensures |kept| <= |lines|
    ensures forall k :: 0 <= k < |kept| ==> !IsBlank(kept[k])
  {
    if lines == [] then []
    else
      var line := lines[|lines| - 1];
      var earlier := NonBlank(lines[..|lines| - 1]);
      if !IsBlank(line) then earlier + [line] else earlier
  }

  /** One more line: its song, if any, comes after the songs of the earlier lines, and likewise its report. */
  lemma LoadStep(lines: seq<string>, k: nat)
    requires k < |lines|
    ensures Accepted(lines[..k + 1]) == Accepted(lines[..k]) + Accepted([lines[k]])
    ensures Reported(lines[..k + 1]) == Reported(lines[..k]) + Reported([lines[k]])
  {
    assert lines[..k + 1] == lines[..k] + [lines[k]];
    LoadSnoc(lines[..k], lines[k]);
  }

  lemma AppendAssociates<T>(a: seq<T>, b: seq<T>, c: seq<T>)
    ensures (a + b) + c == a + (b + c)
  {
  }

  /**
   * The body of the loading loop for one line: skip it if blank, append its
   * song if it parses, report it otherwise.
   */
  method LoadLine(player: MusicPlayer, line: string) returns (bad: seq<string>)
    requires player.Valid()
    modifies player`head, player`tail, player`numSongs, player`nodes, player`songs, player.tail
    ensures player.Valid()
    ensures player.songs == old(player.songs) + Accepted([line])
    ensures bad == Reported([line])
    ensures old(player.nodes) <= player.nodes
    ensures player.tail == old(player.tail) || fresh(player.tail)
  {
    bad := [];
    if !IsBlank(line) {
      var song := ParseLine(line);
      if song.Some? {
        player.AddSong(song.value);
      } else {
        bad := [line];
      }
    }
  }

  /**
   * One iteration of the loading loop: after the first `k` lines, load
   * line `k`.
   */
  method LoadNext(player: MusicPlayer, lines: seq<string>, k: nat, ghost base: seq<Song>, reported: seq<string>)
    returns (reported': seq<string>)
    requires player.Valid() && k < |lines|
    requires player.songs == base + Accepted(lines[..k]) && reported == Reported(lines[..k])
    modifies player`head, player`tail, player`numSongs, player`nodes, player`songs, player.tail
    ensures player.Valid()
    ensures player.songs == base + Accepted(lines[..k + 1]) && reported' == Reported(lines[..k + 1])
    ensures old(player.nodes) <= player.nodes
    ensures player.tail == old(player.tail) || fresh(player.tail)
  {
    var bad := LoadLine(player, lines[k]);
    LoadStep(lines, k);
    AppendAssociates(base, Accepted(lines[..k]), Accepted([lines[k]]));
    reported' := reported + bad;
  }

  /**
   * The loading loop of `main`: skip blank lines, append the song of every
   * line that parses, report every other line. The earlier songs and nodes
   * stay in place and nothing but the list changes.
   */
  method LoadSongs(player: MusicPlayer, lines: seq<string>) returns (reported: seq<string>)
    requires player.Valid()
    modifies player`head, player`tail, player`numSongs, player`nodes, player`songs, player.tail
    ensures player.Valid()
    ensures player.songs == old(player.songs) + Accepted(lines)
    ensures reported == Reported(lines)
    ensures old(player.nodes) <= player.nodes
  {
    reported := [];
    var k := 0;
    while k < |lines|
      invariant 0 <= k <= |lines|
      invariant player.Valid()
      invariant player.songs == old(player.songs) + Accepted(lines[..k])
      invariant reported == Reported(lines[..k])
      invariant old(player.nodes) <= player.nodes
      invariant player.tail == old(player.tail) || fresh(player.tail)
    {
      reported := LoadNext(player, lines, k, old(player.songs), reported);
      k := k + 1;
    }
    assert lines[..k] == lines;
  }

  /**
   * A line with only two fields, such as `E,F`, is reported: the second
   * `,` literal of the pattern finds no comma to match.
   */
  lemma TwoFieldsRejected(x: string, y: string)
    requires ',' !in x && '\0' !in x && ',' !in y && '\0' !in y
    ensures ParseLine(x + "," + y) == None
  {
    var line := x + "," + y;
    if ParseLine(line).Some? {
      ParseLineSound(line);
      CStringOfPlain(line);
      assert false;
    }
  }

  lemma FourLines<T>(w: T, x: T, y: T, z: T)
    ensures [w] + [x] + [y] + [z] == [w, x, y, z]
  {
  }

  /** A record on a line of its own is loaded as its song, and not reported. */
  lemma RecordAccepted(song: Song)
    requires WellFormed(song) && '\n' !in Fields(song)
    ensures Accepted([Record(song)]) == [song] && Reported([Record(song)]) == []
  {
    RecordRoundTrip(song);
    var line := Record(song);
    assert line[0] == song.title[0] && song.title[0] in song.title;
    assert song.title[0] in Fields(song) by {
      assert Fields(song)[0] == song.title[0];
    }
    assert !IsBlank(line);
  }

  /**
   * Loading a small file: a record, a blank line, another record and a
   * line the rule rejects. Exactly the two records are appended, in order,
   * and exactly the rejected line is reported; the blank line is skipped
   * without a report.
   */
  lemma LoadScenario(a: Song, c: Song, bad: string)
    requires WellFormed(a) && WellFormed(c) && '\n' !in Fields(a) && '\n' !in Fields(c)
    requires !IsBlank(bad) && ParseLine(bad).None?
    ensures Accepted([Record(a), "\n", Record(c), bad]) == [a, c]
    ensures Reported([Record(a), "\n", Record(c), bad]) == [bad]
  {
    var first := [Record(a)];
    var second := first + ["\n"];
    var third := second + [Record(c)];
    assert Accepted(second) == [a] && Reported(second) == [] by {
      RecordAccepted(a);
      LoadSnoc(first, "\n");
    }
    assert Accepted(third) == [a, c] && Reported(third) == [] by {
      RecordAccepted(c);
      LoadSnoc(second, Record(c));
    }
    LoadSnoc(third, bad);
    FourLines(Record(a), "\n", Record(c), bad);
  }

  /**
   * The selection walk of menu choice 2: a song number from 1 to
   * `numSongs` selects the node at that position, walking from the head;
   * any other number selects nothing.
   */
  method SelectSong(player: MusicPlayer, songIndex: int) returns (selected: Node?)
    requires player.Valid()
    ensures selected != null <==> 0 < songIndex <= player.numSongs
    ensures selected != null ==> selected == player.nodes[songIndex - 1] && selected.song == player.songs[songIndex - 1]
  {
    if songIndex > 0 && songIndex <= player.numSongs {
      selected := Walk(player.head, player.nodes, songIndex - 1);
    } else {
      selected := null;
    }
  }

  /**
   * No device is left open behind the player's back: the device pointer is
   * NULL or names a handle that is already closed, because `playSong`
   * closes every device it opens.
   */
  predicate NothingOpen(device: DevicePtr, live: set<nat>)
  {
    device.Handle? ==> device.id !in live
  }

  /**
   * Menu choice 2. While playing: stop and clear `isPlaying`. Otherwise: a
   * valid song number selects that song, plays it and sets `isPlaying`
   * whatever the playback's outcome; an invalid one changes nothing.
   */
  method PlayChoice(player: MusicPlayer, backend: Backend, songIndex: int, outcome: PlayOutcome)
    returns (staleClose: bool)
    requires player.Valid() && backend.Valid()
    modifies player`device, player`isPlaying, player`currentSong, backend
    ensures player.Valid() && backend.Valid()
    ensures NothingOpen(old(player.device), old(backend.live)) ==> NothingOpen(player.device, backend.live)
    ensures old(player.isPlaying) != 0 ==>
      player.isPlaying == 0 && player.device == Null && player.currentSong == old(player.currentSong) &&
      backend.live == LiveAfterStop(old(player.device), old(backend.live)) &&
      backend.issued == old(backend.issued) &&
      (staleClose <==> old(player.device).Handle? && old(player.device).id !in old(backend.live))
    ensures old(player.isPlaying) == 0 && 0 < songIndex <= player.numSongs ==>
      player.isPlaying == 1 && player.currentSong == player.nodes[songIndex - 1] &&
      player.device == DeviceAfterPlay(old(player.device), outcome, old(backend.issued)) &&
      backend.live == old(backend.live) && !staleClose &&
      backend.issued == old(backend.issued) + (if outcome.BufferUnavailable? || outcome.Played? then 1 else 0)
    ensures old(player.isPlaying) == 0 && !(0 < songIndex <= player.numSongs) ==>
      player.isPlaying == 0 && player.device == old(player.device) &&
      player.currentSong == old(player.currentSong) &&
      backend.live == old(backend.live) && backend.issued == old(backend.issued) && !staleClose
  {
    staleClose := false;
    if player.isPlaying != 0 {
      staleClose := player.StopSong(backend);
      player.isPlaying := 0;
    } else {
      var selected := SelectSong(player, songIndex);
      if selected != null {
        player.currentSong := selected;
        player.PlaySong(backend, outcome);
        player.isPlaying := 1;
      }
    }
  }

  /** Menu choice 3: stop and clear `isPlaying` while playing; otherwise change nothing. */
  method StopChoice(player: MusicPlayer, backend: Backend) returns (staleClose: bool)
    requires player.Valid() && backend.Valid()
    modifies player`device, player`isPlaying, backend
    ensures player.Valid() && backend.Valid()
    ensures NothingOpen(old(player.device), old(backend.live)) ==> NothingOpen(player.device, backend.live)
    ensures old(player.isPlaying) != 0 ==>
      player.isPlaying == 0 && player.device == Null &&
      backend.live == LiveAfterStop(old(player.device), old(backend.live)) &&
      (staleClose <==> old(player.device).Handle? && old(player.device).id !in old(backend.live))
    ensures old(player.isPlaying) == 0 ==>
      player.isPlaying == 0 && player.device == old(player.device) &&
      backend.live == old(backend.live) && !staleClose
    ensures backend.issued == old(backend.issued)
  {
    staleClose := false;
    if player.isPlaying != 0 {
      staleClose := player.StopSong(backend);
      player.isPlaying := 0;
    }
  }

  /** A second `stopSong` right after a first one changes nothing and closes nothing. */
  method StopTwice(player: MusicPlayer, backend: Backend) returns (first: bool, second: bool)
    requires backend.Valid()
    modifies player`device, backend
    ensures player.device == Null && !second
    ensures backend.live == LiveAfterStop(old(player.device), old(backend.live))
  {
    first := player.StopSong(backend);
    ghost var live := backend.live;
    second := player.StopSong(backend);
    assert backend.live == live;
  }

  /**
   * A song played to the end and then stopped with choice 3: the device is
   * opened and closed inside `playSong`, and the stop closes the same,
   * already closed handle again. No device stays open.
   */
  method PlayThenStop(player: MusicPlayer, backend: Backend, songIndex: int) returns (staleClose: bool)
    requires player.Valid() && backend.Valid()
    requires player.isPlaying == 0 && 0 < songIndex <= player.numSongs
    modifies player`device, player`isPlaying, player`currentSong, backend
    ensures player.Valid() && player.isPlaying == 0 && player.device == Null
    ensures staleClose && backend.live == old(backend.live)
    ensures backend.issued == old(backend.issued) + 1
  {
    ghost var live, issued := backend.live, backend.issued;
    var _ := PlayChoice(player, backend, songIndex, Played);
    assert player.device == Handle(issued) && issued !in live;
    staleClose := StopChoice(player, backend);
    assert backend.live == live - {issued};
  }
}
