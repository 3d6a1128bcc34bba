# music-player: a Dafny model of the playlist core

music-player.c is a small terminal music player. It reads a playlist from
`<name>.csv`, one song per line (`title,artist,duration,filename`), into a
doubly linked list owned by a `MusicPlayer` record. A menu then lists the
songs, plays or stops the selected one through libsndfile and libao, and
shows a shuffled copy of the list.

The model has five modules.

- `Songs` (pure) covers the `Song` record and the rule that turns one line into
  a song.
  - It follows `sscanf(line, "%99[^,],%99[^,],%99[^,],%99[^\n]", ...) == 4`
    conversion by conversion, then the bounded `strncpy` copies.
  - The rule is proved sound and complete against a plain description of the
    accepted lines, including a round trip from record to line and back.
- `Audio` (imperative) keeps track of the live libao output devices.
  - `ao_open_live` hands out a new handle, and `ao_close` removes one.
  - Closing a handle that is no longer live is reported, not hidden.
- `Playlist` (imperative) has `Node` and `MusicPlayer` as classes with the
  source's fields.
  - Ghost sequences `nodes` and `songs` give the list order, and `Valid` is the
    list invariant (`next`/`prev` links, `head`, `tail`, `numSongs`).
  - It models `createNode`, `addSong`, `displayPlaylist`, `playSong` and
    `stopSong`. Listing and walking the list are loops with invariants.
- `Shuffle` models `copyPlaylist` and `displayShuffledPlaylist`.
  - It makes a fresh deep copy, then runs an in-place Fisher–Yates pass that
    swaps song payloads.
  - The pass is proved against a functional `FisherYates`, which is proved to
    be a permutation.
  - `rand()` is replaced by a sequence of draws given by the caller.
- `Menu` models the loading loop of `main` and menu choices 2 (play/stop) and
  3 (stop), including the song-number check and the walk to the selected
  node.

Two behaviours of the source are modelled as written:

1. Choice 2 sets `isPlaying` to 1 whatever the outcome of `playSong`.
2. `playSong` closes every device it opens but leaves the closed handle in
   `player->device`, so a later `stopSong` closes that handle a second time.
   `PlayThenStop` proves that this happens after a song is played to the end.

## Model

| member | source | states |
|---|---|---|
| Songs.ScanSet | music-player.c:208 | a `%w[^c]` scan takes a prefix of at most `w` characters with no `c`, stopping only at `c`, the end or the width |
| Songs.CString | music-player.c:208 | the C string read from the buffer is the prefix before the first NUL and contains no NUL |
| Songs.Conversion | music-player.c:208 | a `%99[^c]` conversion fails exactly when the input is empty or starts with `c`; otherwise it splits the input into a field of 1..99 characters free of `c` and the unread rest |
| Songs.Leading | music-player.c:208 | a conversion followed by the literal `,` yields a comma-free field of 1..99 characters and what follows the comma |
| Songs.BoundedCopy | music-player.c:210-217 | `strncpy` plus a terminator keeps a prefix of the source: the whole source when it fits in `limit` characters, exactly `limit` characters otherwise |
| Songs.Scan | music-player.c:208-217 | the conversions still to do after the fields already scanned; an accepted song's fields all fit their 100-byte buffers with the terminating NUL |
| Songs.ParseRecord | music-player.c:208-217 | the four conversions and bounded copies applied to a C string; every field of an accepted song fits its buffer |
| Songs.ParseLine | music-player.c:208-217 | the accept rule for one line, read as a C string; an accepted song is well formed (three comma-free fields and a file name without newline, each 1..99 bytes, no NUL) |
| Songs.ScanSetExact | music-player.c:208 | a scan over a field followed by the stop character, the end or the width returns exactly that field |
| Songs.ConversionExact | music-player.c:208 | a conversion over a valid field followed by an acceptable rest returns that field and rest |
| Songs.LeadingExact | music-player.c:208 | a valid field, a comma and any rest are split back into that field and rest |
| Songs.ScanLeading | music-player.c:208 | one leading field and its comma advance the scan by exactly that field |
| Songs.TakeLeading | music-player.c:208 | a successful scan of a leading field consumed a 1..99-character comma-free field and a comma |
| Songs.TakeLast | music-player.c:208-217 | a successful last conversion consumed a 1..99-character field without newline, left an acceptable rest, and built the song from the bounded copies |
| Songs.ScanThree | music-player.c:208 | three valid leading fields with their commas leave only the last conversion |
| Songs.TakeThree | music-player.c:208 | an accepted record starts with three valid fields and their commas |
| Songs.ParseRecordExact | music-player.c:208-217 | the four fields of a well-formed song followed by an acceptable rest parse to exactly that song |
| Songs.ParseRecordSound | music-player.c:208-217 | an accepted record is the four fields of the song it yields followed by an acceptable rest, and the song is well formed when the input has no NUL |
| Songs.CStringOfPlain | music-player.c:208 | a buffer without NUL is read whole |
| Songs.ParseLineComplete | music-player.c:208-217 | completeness: a line made of a well-formed song's fields and an acceptable NUL-free rest is accepted as that song |
| Songs.ParseLineSound | music-player.c:208-217 | soundness: an accepted line yields a well-formed song whose fields, then an acceptable rest, make up the line's C string |
| Songs.ParseLinePrefix | music-player.c:208-217 | a NUL-free line starting with a described record is accepted as that record |
| Songs.ParseLineCharacterized | music-player.c:208-217 | for NUL-free lines, a line parses to a song if and only if it starts with that well-formed song's fields followed by an acceptable rest |
| Songs.ParseLineOfCString | music-player.c:205-208 | a line is parsed only up to its first NUL: it parses exactly as its C string does |
| Songs.ParseLineCharacterizedOnCString | music-player.c:205-217 | for every line, NUL or not, it parses to a song if and only if its C string starts with that well-formed song's fields followed by an acceptable rest |
| Songs.RecordRoundTrip | music-player.c:208-217 | writing a well-formed song as a CSV line and parsing it gives the same song back |
| Songs.OverlongTitleRejected | music-player.c:208 | a line whose first 100 characters contain no comma (and no NUL) is rejected |
| Audio.Backend.constructor | music-player.c:185 | `ao_initialize`: no device is live |
| Audio.Backend.OpenLive | music-player.c:88 | a successful `ao_open_live` returns a handle that was not live and makes it live |
| Audio.Backend.Close | music-player.c:116 | `ao_close` removes the handle from the live devices and reports whether it was live |
| Playlist.Node.constructor | music-player.c:36-45 | `createNode`: the node holds the song and has no links |
| Playlist.LinkedAppend | music-player.c:47-57 | linking a new node after the last node of a linked list gives a linked list one longer |
| Playlist.Listing | music-player.c:59-68 | the listing loop visits every node from the head once, in order, numbering from 1 |
| Playlist.Walk | music-player.c:255-259 | following `next` for `k` steps from the head, with `k` below the length, reaches the node at position `k` and never meets NULL |
| Playlist.MusicPlayer.Valid | music-player.c:26-57 | the list invariant kept by every operation; `numSongs` is the number of songs in the playlist |
| Playlist.DeviceAfterPlay | music-player.c:74-112 | after `playSong` the device pointer is the old one, NULL or the newly opened handle: unchanged when `sf_open` fails, NULL when `ao_open_live` fails, and the new handle whenever the device was opened |
| Playlist.MusicPlayer.constructor | music-player.c:179-183 | the player starts with an empty valid list, nothing selected, not playing, no device |
| Playlist.MusicPlayer.AddSong | music-player.c:47-57 | `addSong` appends the song as a fresh node at the tail, keeps the list invariant, keeps the earlier nodes and a non-empty list's head, and adds 1 to `numSongs` |
| Playlist.MusicPlayer.DisplayPlaylist | music-player.c:59-68 | the playlist is shown as every song numbered from 1 in insertion order |
| Playlist.MusicPlayer.PlaySong | music-player.c:70-112 | for each outcome of `playSong`, the value left in `device`; one handle is issued exactly when the device is opened; every device opened is closed again, and a newly stored handle is not live |
| Playlist.MusicPlayer.StopSong | music-player.c:114-120 | `stopSong` leaves `device` NULL, closes the old handle if there was one, and reports a close of an already closed handle |
| Playlist.EmptyAgrees | music-player.c:49-50 | in a valid player, `head` is NULL if and only if `tail` is NULL if and only if `numSongs` is 0 |
| Shuffle.Swap | music-player.c:162-164 | swapping exchanges the two positions and leaves every other position alone |
| Shuffle.SwapPermutes | music-player.c:162-164 | a swap keeps every element with its multiplicity |
| Shuffle.Draw | music-player.c:157 | `i + rand() % (n - i)` is always a position in `i .. n-1` |
| Shuffle.ShuffleFrom | music-player.c:156-165 | the remaining steps of the pass keep the length |
| Shuffle.ShufflePermutes | music-player.c:156-165 | the pass is a permutation: the same songs, each as often |
| Shuffle.FisherYates | music-player.c:156-165 | the functional form of the whole pass; the shuffled order has the same length and holds exactly the playlist's songs, each as often |
| Shuffle.ShortListUnchanged | music-player.c:156 | with at most one song, the pass does nothing |
| Shuffle.ShuffleKeepsPrefix | music-player.c:156-165 | once the pass is past position `i`, positions before `i` never change again |
| Shuffle.CopyPlaylist | music-player.c:123-139 | `copyPlaylist` builds a linked list of fresh nodes holding the same songs in the same order, NULL for an empty list |
| Shuffle.CopyNode | music-player.c:128-135 | one copy step appends a fresh node holding the song to the copy and keeps it linked |
| Shuffle.SwapSongs | music-player.c:162-164 | swapping the payloads of two nodes swaps the two songs and keeps every link |
| Shuffle.ShuffleStep | music-player.c:156-164 | one step draws `r`, walks to position `r`, swaps, and leaves the order the functional pass continues from |
| Shuffle.ShufflePass | music-player.c:154-165 | the in-place loop leaves the nodes holding `FisherYates` of the songs, with the links untouched |
| Shuffle.DisplayShuffled | music-player.c:152-174 | the shuffled listing is the `FisherYates` order of the playlist numbered from 1, and the player is not modified |
| Menu.IsBlank | music-player.c:206 | the skipped lines are exactly those whose C string is empty or starts with a newline |
| Menu.Accepted | music-player.c:205-222 | the loader appends at most one song per line |
| Menu.Reported | music-player.c:219-221 | the loader reports at most one line per line read |
| Menu.NonBlank | music-player.c:206 | the lines kept after skipping blank ones are all non-blank |
| Menu.LoadSnoc | music-player.c:205-222 | one more line appends only its own song or its own report |
| Menu.LoadStep | music-player.c:205-222 | after line `k`, the songs and reports are those of the first `k` lines followed by those of line `k` |
| Menu.AcceptedConcat | music-player.c:205-222 | loading a file in two parts gives the first part's songs followed by the second's |
| Menu.ReportedAreRejected | music-player.c:219-221 | every reported line is an input line that is not blank and that the line rule rejects |
| Menu.LineAccounted | music-player.c:206-221 | a non-blank line is either appended (one song) or reported, never both; a blank line is neither |
| Menu.EveryLineAccounted | music-player.c:205-222 | the songs appended and the lines reported together number exactly the non-blank lines |
| Menu.LoadLine | music-player.c:206-221 | a blank line is skipped; a line that parses has its song appended; any other line is reported |
| Menu.LoadNext | music-player.c:205-221 | one iteration of the loading loop extends the loaded songs and the reports by those of the next line |
| Menu.LoadSongs | music-player.c:204-222 | after the loop, the playlist is the old songs followed by the accepted songs in file order, the reports are the rejected lines, and the list invariant holds |
| Menu.TwoFieldsRejected | music-player.c:208 | a line with only two comma-free fields is rejected |
| Menu.RecordAccepted | music-player.c:205-218 | a record on a line of its own is appended as its song and not reported |
| Menu.LoadScenario | music-player.c:205-222 | for a file of two records, a blank line and a bad line, exactly the two records are appended in order and only the bad line is reported |
| Menu.SelectSong | music-player.c:254-265 | a song number is accepted if and only if it is in `1..numSongs`, and then the walk reaches the node holding that song |
| Menu.PlayChoice | music-player.c:244-267 | choice 2 while playing stops, clears `isPlaying` and opens no device; otherwise a valid number selects, plays and sets `isPlaying` to 1 whatever the outcome, issuing one handle exactly when the device is opened; an invalid number changes nothing; no device is left open |
| Menu.StopChoice | music-player.c:268-275 | choice 3 while playing stops, leaves the device NULL and clears `isPlaying`; otherwise nothing changes |
| Menu.StopTwice | music-player.c:114-120 | a second `stopSong` right after a first closes nothing and leaves the device NULL |
| Menu.PlayThenStop | music-player.c:244-275 | a song played to the end and then stopped opens exactly one device, leaves no device live, and the stop closes an already closed handle |

## Left out

- The audio work inside `playSong` is not modelled: opening the file with libsndfile, the sample format, reading and playing the buffer. How a call ends is the input `PlayOutcome`.
- `srand(time(NULL))` and `rand()` are replaced by the caller's sequence of draws.
- `printf` output is not modelled. Listings are returned as numbered entries, and unreadable lines are returned as reports.
- Reading the file is left out: `fgets` splitting a line longer than 255 characters, `fopen` failing, and `fclose`. The loader takes the lines `fgets` would return.
- The playlist-name prompt and the file-name construction (`snprintf`, lines 187-201) are left out.
- The menu loop, reading the choice with `scanf`, and the failed `fgets` of the song number (lines 250-253) are left out.
- `atoi` is left out: the song number is given as an integer.
- Choices 4 and 5 have empty bodies, and choice 6 frees the list and exits. `freeCopiedPlaylist` only frees memory. The model does not release memory.
- `createNode` exits on a failed `malloc`; the model does not model that exit. A failed buffer allocation in `playSong` is modelled, as `BufferUnavailable`.
- Strings are sequences of bytes: each `char` stands for one byte, and character encodings such as UTF-8 are not modelled.
- `numSongs` and the loop counters are unbounded integers, so overflow of C `int` is not modelled.
