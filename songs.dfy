/**
 * The song record and the rule by which one line of the playlist's
 * `<name>.csv` file becomes a song (music-player.c, the `sscanf` call and
 * the bounded copies in `main`).
 *
 * A line is what `fgets` stored in the line buffer. Each `char` of a
 * `string` stands for one byte of that buffer, so the widths below count
 * bytes, as C's do; no character encoding is modelled. `sscanf` reads the
 * line as a C string, so only the bytes before the first NUL take part.
 * The pattern `%99[^,],%99[^,],%99[^,],%99[^\n]` is modelled conversion by
 * conversion: a `%99[^c]` conversion takes the longest prefix of at most 99
 * characters none of which is `c`, and FAILS when that prefix is empty;
 * a literal `,` must be the next character. The line is accepted only when
 * all four conversions succeed (`sscanf` returns 4); whatever follows the
 * fourth field is ignored.
 */
module Songs {

  /** Size of the title, artist and duration buffers (`MAX_TITLE_LENGTH`). */
  const MaxTitleLength: nat := 100
  /** Size of the file-name buffer (`MAX_FILENAME_LENGTH`). */
  const MaxFilenameLength: nat := 100
  /** The field width of every `%99[...]` conversion. */
  const FieldWidth: nat := 99

  /** One track: the `Song` struct, copied by value. */
  datatype Song = Song(title: string, artist: string, duration: string, filename: string)

  datatype Option<T> = None | Some(value: T)

  /**
   * The prefix that a `%w[^stop]` scan consumes: the longest prefix of `s`
   * of at most `width` characters that contains no `stop`.
   */
  function ScanSet(s: string, stop: char, width: nat): (f: string)
    ensures |f| <= width && f <= s
    ensures stop !in f
    ensures |f| < width && |f| < |s| ==> s[|f|] == stop
    decreases width
  {
    if width == 0 || s == [] || s[0] == stop then []
    else [s[0]] + ScanSet(s[1..], stop, width - 1)
  }

  /** The C string held in a buffer: everything before the first NUL. */
  function CString(buf: string): (s: string)
    ensures s <= buf && '\0' !in s
    ensures |s| < |buf| ==> buf[|s|] == '\0'
  {
    ScanSet(buf, '\0', |buf|)
  }

  /** One `%99[^stop]` conversion: the field and the unread rest, or a matching failure. */
  function Conversion(s: string, stop: char): (r: Option<(string, string)>)
    ensures r.None? <==> s == [] || s[0] == stop
    ensures r.Some? ==> s == r.value.0 + r.value.1 && 1 <= |r.value.0| <= FieldWidth && stop !in r.value.0
    ensures r.Some? ==> r.value.1 == [] || r.value.1[0] == stop || |r.value.0| == FieldWidth
    ensures r.Some? && '\0' !in s ==> '\0' !in r.value.0 && '\0' !in r.value.1
  {
    var f := ScanSet(s, stop, FieldWidth);
    if f == [] then None else Some((f, s[|f|..]))
  }

  /** A `%99[^,]` conversion followed by the literal `,`: the field and what follows the comma. */
  function Leading(s: string): (r: Option<(string, string)>)
    ensures r.Some? ==> s == r.value.0 + "," + r.value.1 && 1 <= |r.value.0| <= FieldWidth && ',' !in r.value.0
    ensures r.Some? && '\0' !in s ==> '\0' !in r.value.0 && '\0' !in r.value.1
  {
    match Conversion(s, ',')
    case None => None
    case Some((f, rest)) => if rest != [] && rest[0] == ',' then Some((f, rest[1..])) else None
  }

  /** `strncpy(dst, src, limit)` followed by `dst[limit] = '\0'`. */
  function BoundedCopy(src: string, limit: nat): (dst: string)
    ensures |dst| <= limit && dst <= src
    ensures |src| <= limit ==> dst == src
    ensures |src| > limit ==> |dst| == limit
  {
    if |src| <= limit then src else src[..limit]
  }

  /**
   * The accept/reject rule of the loader for one non-empty line: the song
   * built from the four scanned fields, or None when `sscanf` does not
   * return 4.
   */
  function ParseLine(line: string): (r: Option<Song>)
    ensures r.Some? ==> WellFormed(r.value)
  {
    var s := CString(line);
    if ParseRecord(s).Some? then
      ParseRecordSound(s);
      ParseRecord(s)
    else
      None
  }

  /** The four conversions of the pattern applied to a C string; every field fits its buffer. */
  function ParseRecord(s: string): (r: Option<Song>)
    ensures r.Some? ==> Fits(r.value)
  {
    Scan([], s)
  }

  /** Every field of `song` fits, with its terminating NUL, in its `Song` buffer. */
  predicate Fits(song: Song)
  {
    |song.title| < MaxTitleLength && |song.artist| < MaxTitleLength &&
    |song.duration| < MaxTitleLength && |song.filename| < MaxFilenameLength
  }

  /**
   * The conversions after the fields already scanned: `%99[^,]` and `,`
   * for each of the first three fields, `%99[^\n]` for the fourth, then the
   * bounded copies into the `Song`.
   */
  function Scan(fields: seq<string>, s: string): (r: Option<Song>)
    requires |fields| <= 3
    ensures r.Some? ==> Fits(r.value)
    decreases 3 - |fields|
  {
    if |fields| < 3 then
      match Leading(s)
      case None => None
      case Some((f, rest)) => Scan(fields + [f], rest)
    else
      match Conversion(s, '\n')
      case None => None
      case Some((filename, _)) =>
        Some(Song(BoundedCopy(fields[0], MaxTitleLength - 1),
                  BoundedCopy(fields[1], MaxTitleLength - 1),
                  BoundedCopy(fields[2], MaxTitleLength - 1),
                  BoundedCopy(filename, MaxFilenameLength - 1)))
  }

  /** A field one `%99[^stop]` conversion can produce from a C string. */
  predicate FieldText(f: string, stop: char)
  {
    1 <= |f| <= FieldWidth && stop !in f && '\0' !in f
  }

  /** A song the loader can store: three comma-free fields and a file name without a newline. */
  predicate WellFormed(song: Song)
  {
    FieldText(song.title, ',') && FieldText(song.artist, ',') &&
    FieldText(song.duration, ',') && FieldText(song.filename, '\n')
  }

  /** The text that the four conversions and three commas consume for `song`. */
  function Fields(song: Song): string
  {
    song.title + "," + song.artist + "," + song.duration + "," + song.filename
  }

  /** What may follow the fourth field: nothing, a newline, or anything once 99 characters were taken. */
  predicate AcceptableRest(song: Song, rest: string)
  {
    rest == [] || rest[0] == '\n' || |song.filename| == FieldWidth
  }

  /** A scan stops exactly at the end of a field that is followed by the stop character, the end, or the width. */
  lemma {:induction false} ScanSetExact(f: string, rest: string, stop: char, width: nat)
    requires stop !in f && |f| <= width
    requires rest == [] || rest[0] == stop || |f| == width
    ensures ScanSet(f + rest, stop, width) == f
    decreases f
  {
    if f != [] {
      assert (f + rest)[0] == f[0];
      assert (f + rest)[1..] == f[1..] + rest;
      ScanSetExact(f[1..], rest, stop, width - 1);
    }
  }

  lemma ConversionExact(f: string, rest: string, stop: char)
    requires FieldText(f, stop)
    requires rest == [] || rest[0] == stop || |f| == FieldWidth
    ensures Conversion(f + rest, stop) == Some((f, rest))
  {
    ScanSetExact(f, rest, stop, FieldWidth);
    assert (f + rest)[|f|..] == rest;
  }

  lemma LeadingExact(f: string, rest: string)
    requires FieldText(f, ',')
    ensures Leading(f + "," + rest) == Some((f, rest))
  {
    ConversionExact(f, "," + rest, ',');
    assert f + "," + rest == f + ("," + rest);
  }

  /** The four fields of `song`, then `rest`, grouped the way the conversions consume them. */
  function Line(song: Song, rest: string): string
  {
    song.title + "," + (song.artist + "," + (song.duration + "," + (song.filename + rest)))
  }

  lemma FieldsThenRest(song: Song, rest: string)
    ensures Fields(song) + rest == Line(song, rest)
  {
  }

  /** One leading field and its comma, as the conversion of field number `|fields|`. */
  lemma ScanLeading(fields: seq<string>, f: string, rest: string)
    requires |fields| < 3 && FieldText(f, ',')
    ensures Scan(fields, f + "," + rest) == Scan(fields + [f], rest)
  {
    LeadingExact(f, rest);
  }

  /** A successful scan of a leading field: the field, its comma, and the scan of the rest. */
  lemma TakeLeading(fields: seq<string>, s: string) returns (f: string, rest: string)
    requires |fields| < 3 && Scan(fields, s).Some?
    ensures s == f + "," + rest && 1 <= |f| <= FieldWidth && ',' !in f
    ensures '\0' !in s ==> '\0' !in f && '\0' !in rest
    ensures Scan(fields + [f], rest) == Scan(fields, s)
  {
    f, rest := Leading(s).value.0, Leading(s).value.1;
  }

  /** A successful scan of the last field: the field, the unread rest, and the song built. */
  lemma TakeLast(fields: seq<string>, s: string) returns (f: string, rest: string)
    requires |fields| == 3 && Scan(fields, s).Some?
    ensures s == f + rest && 1 <= |f| <= FieldWidth && '\n' !in f
    ensures '\0' !in s ==> '\0' !in f
    ensures rest == [] || rest[0] == '\n' || |f| == FieldWidth
    ensures Scan(fields, s) == Some(Song(BoundedCopy(fields[0], MaxTitleLength - 1),
                                         BoundedCopy(fields[1], MaxTitleLength - 1),
                                         BoundedCopy(fields[2], MaxTitleLength - 1),
                                         BoundedCopy(f, MaxFilenameLength - 1)))
  {
    f, rest := Conversion(s, '\n').value.0, Conversion(s, '\n').value.1;
  }

  /** The lists of fields scanned so far, one field at a time. */
  lemma FieldLists<T>(t: T, a: T, d: T)
    ensures [] + [t] == [t] && [t] + [a] == [t, a] && [t, a] + [d] == [t, a, d]
  {
  }

  /** Three leading fields, each with its comma, leave the last conversion to do. */
  lemma ScanThree(t: string, a: string, d: string, s3: string)
    requires FieldText(t, ',') && FieldText(a, ',') && FieldText(d, ',')
    ensures ParseRecord(t + "," + (a + "," + (d + "," + s3))) == Scan([t, a, d], s3)
  {
    FieldLists(t, a, d);
    ScanLeading([t, a], d, s3);
    ScanLeading([t], a, d + "," + s3);
    ScanLeading([], t, a + "," + (d + "," + s3));
  }

  /** The inverse of `ScanThree`: an accepted record starts with three fields and their commas. */
  lemma TakeThree(s: string) returns (t: string, a: string, d: string, s3: string)
    requires ParseRecord(s).Some?
    ensures s == t + "," + (a + "," + (d + "," + s3))
    ensures 1 <= |t| <= FieldWidth && ',' !in t && 1 <= |a| <= FieldWidth && ',' !in a
    ensures 1 <= |d| <= FieldWidth && ',' !in d
    ensures '\0' !in s ==> '\0' !in t && '\0' !in a && '\0' !in d && '\0' !in s3
    ensures Scan([t, a, d], s3) == ParseRecord(s)
  {
    var s1, s2;
    t, s1 := TakeLeading([], s);
    a, s2 := TakeLeading([] + [t], s1);
    d, s3 := TakeLeading([] + [t] + [a], s2);
    FieldLists(t, a, d);
  }

  lemma ParseRecordExact(song: Song, rest: string)
    requires WellFormed(song)
    requires AcceptableRest(song, rest)
    ensures ParseRecord(Line(song, rest)) == Some(song)
  {
    ScanThree(song.title, song.artist, song.duration, song.filename + rest);
    ConversionExact(song.filename, rest, '\n');
  }

  lemma CStringOfPlain(s: string)
    requires '\0' !in s
    ensures CString(s) == s
  {
    ScanSetExact(s, [], '\0', |s|);
    assert s + [] == s;
  }

  /**
   * Completeness of the line rule: a line that starts with the four fields
   * of a well-formed song, followed by an acceptable rest, yields exactly
   * that song.
   */
  lemma ParseLineComplete(song: Song, rest: string)
    requires WellFormed(song) && '\0' !in rest
    requires AcceptableRest(song, rest)
    ensures ParseLine(Fields(song) + rest) == Some(song)
  {
    FieldsThenRest(song, rest);
    CStringOfPlain(Fields(song) + rest);
    ParseRecordExact(song, rest);
  }

  lemma ParseRecordSound(s: string)
    requires ParseRecord(s).Some?
    ensures var song := ParseRecord(s).value;
            exists rest :: s == Line(song, rest) && AcceptableRest(song, rest)
    ensures '\0' !in s ==> WellFormed(ParseRecord(s).value)
  {
    var t, a, d, s3 := TakeThree(s);
    var f, rest := TakeLast([t, a, d], s3);
    var song := Song(t, a, d, f);
    assert ParseRecord(s) == Some(song);
    assert s == Line(song, rest);
  }

  /**
   * Soundness of the line rule: an accepted line starts (as a C string)
   * with the four fields of the song it yields, and what follows them is
   * acceptable.
   */
  lemma ParseLineSound(line: string)
    requires ParseLine(line).Some?
    ensures var song := ParseLine(line).value;
            WellFormed(song) && Fields(song) <= CString(line) &&
            AcceptableRest(song, CString(line)[|Fields(song)|..])
  {
    var s0 := CString(line);
    var song := ParseLine(line).value;
    ParseRecordSound(s0);
    var rest :| s0 == Line(song, rest) && AcceptableRest(song, rest);
    FieldsThenRest(song, rest);
    assert s0[|Fields(song)|..] == rest;
  }

  /** A line free of NUL that starts with a described record is accepted as that record. */
  lemma ParseLinePrefix(line: string, song: Song)
    requires '\0' !in line
    requires WellFormed(song) && Fields(song) <= line
    requires AcceptableRest(song, line[|Fields(song)|..])
    ensures ParseLine(line) == Some(song)
  {
    var rest := line[|Fields(song)|..];
    assert line == Fields(song) + rest;
    ParseLineComplete(song, rest);
  }

  /** Both directions together: the accepted lines are exactly the described ones. */
  lemma ParseLineCharacterized(line: string, song: Song)
    requires '\0' !in line
    ensures ParseLine(line) == Some(song) <==>
            WellFormed(song) && Fields(song) <= line && AcceptableRest(song, line[|Fields(song)|..])
  {
    if ParseLine(line) == Some(song) {
      CStringOfPlain(line);
      ParseLineSound(line);
    }
    if WellFormed(song) && Fields(song) <= line && AcceptableRest(song, line[|Fields(song)|..]) {
      ParseLinePrefix(line, song);
    }
  }

  /** A line is parsed only up to its first NUL: the bytes after it never matter. */
  lemma ParseLineOfCString(line: string)
    ensures ParseLine(line) == ParseLine(CString(line))
  {
    CStringOfPlain(CString(line));
  }

  /**
   * The accept rule for every line, NUL or not: a line parses to a song if
   * and only if its C string starts with that well-formed song's fields
   * followed by an acceptable rest.
   */
  lemma ParseLineCharacterizedOnCString(line: string, song: Song)
    ensures ParseLine(line) == Some(song) <==>
            WellFormed(song) && Fields(song) <= CString(line) &&
            AcceptableRest(song, CString(line)[|Fields(song)|..])
  {
    ParseLineOfCString(line);
    ParseLineCharacterized(CString(line), song);
  }

  /** The line `fgets` returns for a record written out in the file format. */
  function Record(song: Song): string
  {
    Fields(song) + "\n"
  }

  /** Round trip: a well-formed song written as one line parses back to itself. */
  lemma RecordRoundTrip(song: Song)
    requires WellFormed(song)
    ensures ParseLine(Record(song)) == Some(song)
  {
    ParseLineComplete(song, "\n");
  }

  /** A first field of 100 or more characters makes the literal `,` fail: the line is rejected. */
  lemma OverlongTitleRejected(line: string)
    requires |line| > FieldWidth
    requires forall i :: 0 <= i <= FieldWidth ==> line[i] != ',' && line[i] != '\0'
    ensures ParseLine(line) == None
  {
    if ParseLine(line).Some? {
      ParseLineSound(line);
      assert false;
    }
  }
}
