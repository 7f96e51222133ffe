/** The hand-written binary frames of the upload and download websockets. */
module Frames {
  import opened Common

  /** `String::from_utf8` (does it accept the bytes?) and
      `String::from_utf8_lossy`; strings are kept as their UTF-8 bytes. */
  datatype Text = Text(valid: Bytes -> bool, lossy: Bytes -> Bytes)

  /** What the Rust library promises of the two: a valid string survives a
      lossy conversion, and the replacement character brings in no NUL. */
  ghost predicate LawfulText(text: Text) {
    && (forall b :: text.valid(b) ==> text.lossy(b) == b)
    && (forall b :: NoNul(b) ==> NoNul(text.lossy(b)))
  }

  const MAX_NUM_CHUNKS: nat := 10_485_760 / 8192
  const MAX_IMAGE_LEN: nat := 1_048_576
  const MIN_IMAGE_LEN: nat := 4
  const COOKIE_LEN: nat := 50

  /** First message of an upload. `files` maps a checksum to a file name. */
  datatype Header = Header(
    numChunks: nat, username: Bytes, cookie: Bytes, uploadId: Digest, imageLen: nat,
    files: map<Digest, Bytes>)

  /** `Broke` leaves the connection loop, `Panicked` unwinds (or aborts). */
  datatype Parsed<+T> = Accepted(value: T) | Broke | Panicked

  /** Index of the first NUL at or after `from`. */
  function FindNul(msg: Bytes, from: nat): (r: Option<nat>)
    requires from <= |msg|
    ensures r.Some? ==> from <= r.value < |msg| && msg[r.value] == 0 && NoNul(msg[from..r.value])
    ensures r.None? ==> NoNul(msg[from..])
    decreases |msg| - from
  {
    if from == |msg| then None
    else if msg[from] == 0 then Some(from)
    else
      var r := FindNul(msg, from + 1);
      assert msg[from..] == [msg[from]] + msg[from + 1..];
      assert r.Some? ==> msg[from..r.value] == [msg[from]] + msg[from + 1..r.value];
      r
  }

  lemma {:induction false} FindNulAfter(before: Bytes, text: Bytes, after: Bytes)
    requires NoNul(text)
    ensures FindNul(before + text + [0] + after, |before|) == Some(|before| + |text|)
    decreases |text|
  {
    var msg := before + text + [0] + after;
    if text == [] {
      assert msg[|before|] == 0;
    } else {
      assert msg[|before|] == text[0] != 0;
      assert msg == (before + [text[0]]) + text[1..] + [0] + after;
      FindNulAfter(before + [text[0]], text[1..], after);
    }
  }

  // ---------- the tail of checksum / file name pairs ----------

  /** The next checksum of the tail. A short one keeps its zero padding. */
  function TakeChecksum(rest: Bytes): Digest {
    var n := Min(32, |rest|);
    rest[..n] + seq(32 - n, _ => 0)
  }

  /** Bytes after the next checksum. */
  function DropChecksum(rest: Bytes): Bytes {
    rest[Min(32, |rest|)..]
  }

  /** File name: up to a NUL or the end. */
  function TakeName(rest: Bytes): (name: Bytes)
    ensures NoNul(name)
  {
    match FindNul(rest, 0)
    case Some(i) => rest[0..i]
    case None => assert rest[0..] == rest; rest
  }

  /** Bytes after the name and the NUL that ends it. */
  function DropName(rest: Bytes): (r: Bytes)
    ensures |r| <= |rest|
  {
    match FindNul(rest, 0)
    case Some(i) => rest[i + 1..]
    case None => []
  }

  /** The file table a tail stands for; of two entries with one checksum the
      later wins, as with `HashMap::insert`. */
  function FilesOf(text: Text, rest: Bytes): map<Digest, Bytes>
    decreases |rest|
  {
    if rest == [] then map[]
    else
      var afterSum := DropChecksum(rest);
      map[TakeChecksum(rest) := text.lossy(TakeName(afterSum))] + FilesOf(text, DropName(afterSum))
  }

  /** Reading one entry moves it from the bytes into the table. */
  lemma ReadEntry(text: Text, files: map<Digest, Bytes>, rest: Bytes)
    requires rest != []
    ensures var afterSum := DropChecksum(rest);
            files[TakeChecksum(rest) := text.lossy(TakeName(afterSum))] + FilesOf(text, DropName(afterSum))
            == files + FilesOf(text, rest)
  {
    var afterSum := DropChecksum(rest);
    InsertThenMerge(files, TakeChecksum(rest), text.lossy(TakeName(afterSum)), FilesOf(text, DropName(afterSum)));
  }

  lemma InsertThenMerge<K, V>(m: map<K, V>, k: K, v: V, later: map<K, V>)
    ensures m[k := v] + later == m + (map[k := v] + later)
  {
  }

  /** The loop of the source: it terminates on every input and builds the table. */
  method ParseTail(text: Text, tail: Bytes) returns (files: map<Digest, Bytes>)
    ensures files == FilesOf(text, tail)
  {
    files := map[];
    var rest := tail;
    while true
      invariant files + FilesOf(text, rest) == FilesOf(text, tail)
      decreases |rest|
    {
      if |rest| == 0 {
        break;
      }
      ReadEntry(text, files, rest);
      var checksum := TakeChecksum(rest);
      var afterSum := DropChecksum(rest);
      files := files[checksum := text.lossy(TakeName(afterSum))];
      rest := DropName(afterSum);
    }
  }

  /** What a client writes for a list of files. */
  function EncodeTail(entries: seq<(Digest, Bytes)>): Bytes {
    if entries == [] then [] else entries[0].0 + entries[0].1 + [0] + EncodeTail(entries[1..])
  }

  /** The table of a list of files, later entries winning. */
  function FileTable(entries: seq<(Digest, Bytes)>): map<Digest, Bytes> {
    if entries == [] then map[] else map[entries[0].0 := entries[0].1] + FileTable(entries[1..])
  }

  /** A name a client may send: text, with no NUL inside. */
  predicate Sendable(text: Text, name: Bytes) {
    text.valid(name) && NoNul(name)
  }

  /** A complete entry in front of any bytes is read off whole, its name made text. */
  lemma OneEntry(text: Text, sum: Digest, name: Bytes, more: Bytes)
    requires NoNul(name)
    ensures FilesOf(text, sum + name + [0] + more) == map[sum := text.lossy(name)] + FilesOf(text, more)
  {
    var rest := sum + name + [0] + more;
    var after := name + [0] + more;
    assert rest == sum + after;
    assert TakeChecksum(rest) == sum && DropChecksum(rest) == after;
    FindNulAfter([], name, more);
    assert [] + name + [0] + more == after;
    assert TakeName(after) == name && DropName(after) == more;
  }

  /** Complete entries, then any bytes: the table of the entries, overridden by
      whatever the remaining bytes stand for. */
  lemma {:induction false} TailAppend(text: Text, entries: seq<(Digest, Bytes)>, more: Bytes)
    requires LawfulText(text)
    requires forall e :: e in entries ==> Sendable(text, e.1)
    ensures FilesOf(text, EncodeTail(entries) + more) == FileTable(entries) + FilesOf(text, more)
  {
    if entries == [] {
      assert EncodeTail(entries) + more == more;
      assert FileTable(entries) + FilesOf(text, more) == FilesOf(text, more);
    } else {
      var (sum, name) := entries[0];
      var later := EncodeTail(entries[1..]);
      assert entries[0] in entries;
      Assoc(sum + name + [0], later, more);
      OneEntry(text, sum, name, later + more);
      TailAppend(text, entries[1..], more);
      MergeAssoc(map[sum := name], FileTable(entries[1..]), FilesOf(text, more));
    }
  }

  lemma MergeAssoc<K, V>(a: map<K, V>, b: map<K, V>, c: map<K, V>)
    ensures a + (b + c) == (a + b) + c
  {
  }

  lemma TailEnds(text: Text, bytes: Bytes, table: map<Digest, Bytes>)
    requires FilesOf(text, bytes + []) == table + FilesOf(text, [])
    ensures FilesOf(text, bytes) == table
  {
    assert bytes + [] == bytes;
    assert table + map[] == table;
  }

  lemma TailRoundTrip(text: Text, entries: seq<(Digest, Bytes)>)
    requires LawfulText(text)
    requires forall e :: e in entries ==> Sendable(text, e.1)
    ensures FilesOf(text, EncodeTail(entries)) == FileTable(entries)
  {
    TailAppend(text, entries, []);
    TailEnds(text, EncodeTail(entries), FileTable(entries));
  }

  lemma {:induction false} NoNulFound(b: Bytes, from: nat)
    requires NoNul(b) && from <= |b|
    ensures FindNul(b, from) == None
    decreases |b| - from
  {
    if from < |b| {
      NoNulFound(b, from + 1);
    }
  }

  lemma LastEntry(text: Text, rest: Bytes, sum: Digest, name: Bytes)
    requires rest != [] && TakeChecksum(rest) == sum
    requires TakeName(DropChecksum(rest)) == name && DropName(DropChecksum(rest)) == []
    requires text.lossy(name) == name
    ensures FilesOf(text, rest) == map[sum := name]
  {
  }

  lemma CutChecksum(cut: Bytes)
    requires 0 < |cut| < 32
    ensures TakeChecksum(cut) == cut + seq(32 - |cut|, _ => 0)
    ensures DropChecksum(cut) == []
    ensures TakeName([]) == [] && DropName([]) == []
  {
  }

  /** A tail that ends inside a checksum still yields an entry: the checksum is
      padded with zeros and the name is empty. */
  lemma ChecksumCutShort(text: Text, entries: seq<(Digest, Bytes)>, cut: Bytes)
    requires LawfulText(text) && text.valid([])
    requires forall e :: e in entries ==> Sendable(text, e.1)
    requires 0 < |cut| < 32
    ensures FilesOf(text, EncodeTail(entries) + cut)
         == FileTable(entries) + map[cut + seq(32 - |cut|, _ => 0) := []]
  {
    TailAppend(text, entries, cut);
    CutChecksum(cut);
    LastEntry(text, cut, TakeChecksum(cut), []);
  }

  lemma BareName(sum: Digest, name: Bytes)
    requires NoNul(name)
    ensures TakeChecksum(sum + name) == sum && DropChecksum(sum + name) == name
    ensures TakeName(name) == name && DropName(name) == []
  {
  }

  /** The last name of a tail may lack its terminator. */
  lemma NameUnterminated(text: Text, entries: seq<(Digest, Bytes)>, sum: Digest, name: Bytes)
    requires LawfulText(text)
    requires forall e :: e in entries ==> Sendable(text, e.1)
    requires Sendable(text, name)
    ensures FilesOf(text, EncodeTail(entries) + (sum + name)) == FileTable(entries) + map[sum := name]
  {
    TailAppend(text, entries, sum + name);
    BareName(sum, name);
    LastEntry(text, sum + name, sum, name);
  }

  /** With distinct checksums every pair of the list can be looked up. */
  lemma {:induction false} FileTableLookup(entries: seq<(Digest, Bytes)>)
    requires forall i, j :: 0 <= i < j < |entries| ==> entries[i].0 != entries[j].0
    ensures forall i :: 0 <= i < |entries| ==>
              entries[i].0 in FileTable(entries) && FileTable(entries)[entries[i].0] == entries[i].1
    ensures forall d :: d in FileTable(entries) ==> exists i :: 0 <= i < |entries| && entries[i].0 == d
  {
    if entries == [] {
    } else {
      var tail := entries[1..];
      FileTableLookup(tail);
      var table := FileTable(entries);
      assert entries[0].0 !in FileTable(tail);
      forall i | 0 <= i < |entries|
        ensures entries[i].0 in table && table[entries[i].0] == entries[i].1
      {
        if i > 0 {
          assert tail[i - 1] == entries[i];
        }
      }
      forall d | d in table
        ensures exists i :: 0 <= i < |entries| && entries[i].0 == d
      {
        if d == entries[0].0 {
        } else {
          var j :| 0 <= j < |tail| && tail[j].0 == d;
          assert entries[j + 1].0 == d;
        }
      }
    }
  }

  /** Every file name of a parsed tail is free of NULs. */
  lemma {:induction false} TailNamesNoNul(text: Text, rest: Bytes)
    requires LawfulText(text)
    ensures forall d :: d in FilesOf(text, rest) ==> NoNul(FilesOf(text, rest)[d])
    decreases |rest|
  {
    if rest == [] {
    } else {
      TailNamesNoNul(text, DropName(DropChecksum(rest)));
    }
  }

  // ---------- the upload header ----------

  /** The two lookups the parser makes on the way. */
  datatype Checks = Checks(cookieOk: (Bytes, Bytes) -> bool, known: Digest -> bool)

  function ParseHeader(text: Text, checks: Checks, msg: Bytes): Parsed<Header> {
    if |msg| < 8 then Panicked
    else match FindNul(msg, 8)
      case None => Panicked
      case Some(userEnd) =>
        if !text.valid(msg[8..userEnd]) then Broke
        else match FindNul(msg, userEnd + 1)
          case None => Panicked
          case Some(cookieEnd) =>
            ParseCredentials(text, checks, msg, userEnd, cookieEnd)
  }

  function ParseCredentials(text: Text, checks: Checks, msg: Bytes, userEnd: nat, cookieEnd: nat): Parsed<Header>
    requires 8 <= userEnd < cookieEnd < |msg|
  {
    var username := msg[8..userEnd];
    var cookie := msg[userEnd + 1..cookieEnd];
    if !text.valid(cookie) || !checks.cookieOk(username, cookie) then Broke
    else if |msg| < cookieEnd + 33 then Panicked
    else if !checks.known(msg[cookieEnd + 1..cookieEnd + 33]) then Broke
    else if |msg| < cookieEnd + 37 then Panicked
    else
      var imageLen := FromLe(msg[cookieEnd + 33..cookieEnd + 37]);
      if imageLen > MAX_IMAGE_LEN || imageLen < MIN_IMAGE_LEN then Broke
      else
        var files := FilesOf(text, msg[cookieEnd + 37..]);
        var numChunks := FromLe(msg[..8]);
        if numChunks <= MAX_NUM_CHUNKS
        then Accepted(Header(numChunks, username, cookie, msg[cookieEnd + 1..cookieEnd + 33], imageLen, files))
        else Panicked
  }

  /** What a client writes; the table of `h` is written as the list `entries`. */
  function EncodeHeader(h: Header, entries: seq<(Digest, Bytes)>): Bytes {
    EncodeFields(FieldsFor(h, entries))
  }

  predicate Acceptable(checks: Checks, h: Header) {
    && checks.cookieOk(h.username, h.cookie)
    && checks.known(h.uploadId)
    && MIN_IMAGE_LEN <= h.imageLen <= MAX_IMAGE_LEN
    && h.numChunks <= MAX_NUM_CHUNKS
  }

  /** A NUL-terminated string is found where it was written. */
  lemma StringAt(before: Bytes, name: Bytes, after: Bytes)
    requires NoNul(name)
    ensures var msg := before + name + [0] + after;
            var end := |before| + |name|;
            && FindNul(msg, |before|) == Some(end)
            && msg[|before|..end] == name
            && msg[end + 1..] == after
  {
    var msg := before + name + [0] + after;
    FindNulAfter(before, name, after);
    Assoc(before + name, [0], after);
    Between(before, name, [0] + after);
    Between(before + name, [0], after);
  }

  lemma HeaderStrings(count: Bytes, username: Bytes, cookie: Bytes, rest: Bytes)
    requires |count| == 8 && NoNul(username) && NoNul(cookie)
    ensures var msg := count + username + [0] + cookie + [0] + rest;
            var u := 8 + |username|;
            var c := u + 1 + |cookie|;
            && u < c < |msg|
            && FindNul(msg, 8) == Some(u) && msg[8..u] == username
            && FindNul(msg, u + 1) == Some(c) && msg[u + 1..c] == cookie
            && msg[c + 1..] == rest
            && msg[..8] == count
  {
    var msg := count + username + [0] + cookie + [0] + rest;
    var upTo := count + username + [0];
    assert msg == upTo + cookie + [0] + rest;
    StringAt(upTo, cookie, rest);
    assert msg == count + username + [0] + (cookie + [0] + rest);
    StringAt(count, username, cookie + [0] + rest);
    assert msg[..8] == count;
  }

  /** And so are the upload id, the image length and the tail behind them. */
  lemma HeaderNumbers(msg: Bytes, at: nat, id: Digest, image: Bytes, tail: Bytes)
    requires |image| == 4 && at <= |msg| && msg[at..] == id + (image + tail)
    ensures at + 36 <= |msg|
    ensures msg[at..at + 32] == id
    ensures msg[at + 32..at + 36] == image
    ensures msg[at + 36..] == tail
  {
    var rest := msg[at..];
    assert rest == [] + id + (image + tail);
    Between([], id, image + tail);
    assert rest == id + image + tail;
    Between(id, image, tail);
    assert msg[at..at + 32] == rest[0..32];
    assert msg[at + 32..at + 36] == rest[32..36];
    assert msg[at + 36..] == rest[36..];
  }

  /** The fields of a header message. */
  datatype Fields = Fields(
    numChunks: nat, username: Bytes, cookie: Bytes, uploadId: Digest, imageLen: nat, tail: Bytes)

  /** Where a message is long enough, its fields. */
  function FieldsOf(msg: Bytes): Option<Fields> {
    if |msg| < 8 then None
    else match FindNul(msg, 8)
      case None => None
      case Some(u) =>
        match FindNul(msg, u + 1)
        case None => None
        case Some(c) =>
          if |msg| < c + 37 then None else Some(FieldsUpTo(msg, u, c))
  }

  /** What becomes of a message with these fields. */
  function Judge(text: Text, checks: Checks, f: Fields): Parsed<Header> {
    if !text.valid(f.username) || !text.valid(f.cookie) || !checks.cookieOk(f.username, f.cookie) then Broke
    else if !checks.known(f.uploadId) || f.imageLen > MAX_IMAGE_LEN || f.imageLen < MIN_IMAGE_LEN then Broke
    else if f.numChunks > MAX_NUM_CHUNKS then Panicked
    else Accepted(Header(f.numChunks, f.username, f.cookie, f.uploadId, f.imageLen, FilesOf(text, f.tail)))
  }

  /** The fields between and behind the given ends of the two strings. */
  function FieldsUpTo(msg: Bytes, u: nat, c: nat): Fields
    requires 8 <= u < c && c + 37 <= |msg|
  {
    Fields(FromLe(msg[..8]), msg[8..u], msg[u + 1..c], msg[c + 1..c + 33], FromLe(msg[c + 33..c + 37]), msg[c + 37..])
  }

  lemma CredentialsAreJudged(text: Text, checks: Checks, msg: Bytes, u: nat, c: nat)
    requires 8 <= u < c && c + 37 <= |msg| && text.valid(msg[8..u])
    ensures ParseCredentials(text, checks, msg, u, c) == Judge(text, checks, FieldsUpTo(msg, u, c))
  {
  }

  /** The parser judges a message that is long enough by its fields alone. */
  lemma ParseIsJudge(text: Text, checks: Checks, msg: Bytes)
    requires FieldsOf(msg).Some?
    ensures ParseHeader(text, checks, msg) == Judge(text, checks, FieldsOf(msg).value)
  {
    var u := FindNul(msg, 8).value;
    if text.valid(msg[8..u]) {
      CredentialsAreJudged(text, checks, msg, u, FindNul(msg, u + 1).value);
    }
  }

  lemma Regroup<T>(a: seq<T>, b: seq<T>, c: seq<T>, d: seq<T>)
    ensures a + b + c + d == a + (b + (c + d))
  {
  }

  /** The fields of a message whose strings end at `u` and `c`. */
  lemma FieldsAt(msg: Bytes, u: nat, c: nat, id: Digest, image: Bytes, tail: Bytes)
    requires 8 <= u < c < |msg| && |image| == 4
    requires FindNul(msg, 8) == Some(u) && FindNul(msg, u + 1) == Some(c)
    requires msg[c + 1..] == id + (image + tail)
    ensures c + 37 <= |msg| && FieldsOf(msg) == Some(FieldsUpTo(msg, u, c))
    ensures msg[c + 1..c + 33] == id && msg[c + 33..c + 37] == image && msg[c + 37..] == tail
  {
    HeaderNumbers(msg, c + 1, id, image, tail);
  }

  function EncodeFields(f: Fields): Bytes {
    ToLe(f.numChunks, 8) + f.username + [0] + f.cookie + [0] + f.uploadId + ToLe(f.imageLen, 4) + f.tail
  }

  lemma EncodedFields(f: Fields)
    requires f.numChunks < TWO_TO_THE_64 && f.imageLen < 0x1_0000_0000
    requires NoNul(f.username) && NoNul(f.cookie)
    ensures FieldsOf(EncodeFields(f)) == Some(f)
  {
    var count, image := ToLe(f.numChunks, 8), ToLe(f.imageLen, 4);
    Pow256Widths();
    LeRoundTrip(f.numChunks, 8);
    LeRoundTrip(f.imageLen, 4);
    Regroup(count + f.username + [0] + f.cookie + [0], f.uploadId, image, f.tail);
    HeaderStrings(count, f.username, f.cookie, f.uploadId + (image + f.tail));
    FieldsAt(EncodeFields(f), 8 + |f.username|, 9 + |f.username| + |f.cookie|, f.uploadId, image, f.tail);
  }

  function FieldsFor(h: Header, entries: seq<(Digest, Bytes)>): Fields {
    Fields(h.numChunks, h.username, h.cookie, h.uploadId, h.imageLen, EncodeTail(entries))
  }

  /** The verdict on a header: which checks fail it, and how. */
  function Verdict(text: Text, checks: Checks, h: Header): Parsed<Header> {
    if !text.valid(h.username) || !text.valid(h.cookie) || !checks.cookieOk(h.username, h.cookie)
       || !checks.known(h.uploadId) || !(4 <= h.imageLen <= 1_048_576) then Broke
    else if h.numChunks > 1280 then Panicked
    else Accepted(h)
  }

  lemma JudgeFields(text: Text, checks: Checks, f: Fields, h: Header)
    requires f == Fields(h.numChunks, h.username, h.cookie, h.uploadId, h.imageLen, f.tail)
    requires h.files == FilesOf(text, f.tail)
    ensures Judge(text, checks, f) == Verdict(text, checks, h)
  {
  }

  lemma JudgeHeader(text: Text, checks: Checks, h: Header, entries: seq<(Digest, Bytes)>)
    requires LawfulText(text)
    requires forall e :: e in entries ==> Sendable(text, e.1)
    requires h.files == FileTable(entries)
    ensures Judge(text, checks, FieldsFor(h, entries)) == Verdict(text, checks, h)
  {
    TailRoundTrip(text, entries);
    JudgeFields(text, checks, FieldsFor(h, entries), h);
  }

  lemma HeaderVerdict(text: Text, checks: Checks, h: Header, entries: seq<(Digest, Bytes)>)
    requires LawfulText(text)
    requires h.numChunks < TWO_TO_THE_64 && h.imageLen < 0x1_0000_0000
    requires NoNul(h.username) && NoNul(h.cookie)
    requires forall e :: e in entries ==> Sendable(text, e.1)
    requires h.files == FileTable(entries)
    ensures ParseHeader(text, checks, EncodeHeader(h, entries)) == Verdict(text, checks, h)
  {
    EncodedFields(FieldsFor(h, entries));
    ParseIsJudge(text, checks, EncodeHeader(h, entries));
    JudgeHeader(text, checks, h, entries);
  }

  /** Parsing an encoded header returns every field. The connection is closed for
      strings that are not text, a cookie or upload id that is not known, or an image
      of the wrong size; a number of chunks above 1280 panics. */
  lemma HeaderRoundTrip(text: Text, checks: Checks, h: Header, entries: seq<(Digest, Bytes)>)
    requires LawfulText(text)
    requires h.numChunks < TWO_TO_THE_64 && h.imageLen < 0x1_0000_0000
    requires NoNul(h.username) && NoNul(h.cookie)
    requires forall e :: e in entries ==> Sendable(text, e.1)
    requires h.files == FileTable(entries)
    ensures var result := ParseHeader(text, checks, EncodeHeader(h, entries));
            var known := text.valid(h.username) && text.valid(h.cookie) && checks.cookieOk(h.username, h.cookie)
                         && checks.known(h.uploadId) && 4 <= h.imageLen <= 1_048_576;
            && (result == Broke <==> !known)
            && (result == Panicked <==> known && h.numChunks > 1280)
            && (known && h.numChunks <= 1280 ==> result == Accepted(h))
  {
    HeaderVerdict(text, checks, h, entries);
  }

  // ---------- headers that end early ----------

  /** A NUL is found in a part of the message if it lies in that part. */
  lemma {:induction false} FindNulInPart(msg: Bytes, n: nat, from: nat)
    requires from <= n <= |msg|
    ensures FindNul(msg[..n], from)
         == match FindNul(msg, from) case Some(i) => (if i < n then Some(i) else None) case None => None
    decreases n - from
  {
    if from < n {
      FindNulInPart(msg, n, from + 1);
    }
  }

  /** The strings end at `u` and `c` and are those of `h`. */
  ghost predicate StringsOf(msg: Bytes, h: Header, u: nat, c: nat) {
    && 8 <= u < c && c + 37 <= |msg|
    && FindNul(msg, 8) == Some(u) && msg[8..u] == h.username
    && FindNul(msg, u + 1) == Some(c) && msg[u + 1..c] == h.cookie
  }

  lemma PartStrings(msg: Bytes, h: Header, u: nat, c: nat, n: nat)
    requires StringsOf(msg, h, u, c) && n <= |msg|
    ensures n >= 8 ==> FindNul(msg[..n], 8) == if u < n then Some(u) else None
    ensures n > u ==> msg[..n][8..u] == h.username && FindNul(msg[..n], u + 1) == if c < n then Some(c) else None
    ensures n > c ==> msg[..n][u + 1..c] == h.cookie
  {
    if n >= 8 {
      FindNulInPart(msg, n, 8);
    }
    if n > u {
      FindNulInPart(msg, n, u + 1);
      assert msg[..n][8..u] == msg[8..u];
    }
    if n > c {
      assert msg[..n][u + 1..c] == msg[u + 1..c];
    }
  }

  lemma CutBehindStrings(text: Text, checks: Checks, msg: Bytes, h: Header, u: nat, c: nat, n: nat)
    requires StringsOf(msg, h, u, c) && msg[c + 1..c + 33] == h.uploadId && c < n < c + 37
    requires text.valid(h.username)
    ensures ParseHeader(text, checks, msg[..n])
         == if !text.valid(h.cookie) || !checks.cookieOk(h.username, h.cookie) then Broke
            else if n >= c + 33 && !checks.known(h.uploadId) then Broke
            else Panicked
  {
    PartStrings(msg, h, u, c, n);
    var cut := msg[..n];
    assert ParseHeader(text, checks, cut) == ParseCredentials(text, checks, cut, u, c);
    assert n >= c + 33 ==> cut[c + 1..c + 33] == msg[c + 1..c + 33];
  }

  /** A message that ends before the file names panics at the first missing field,
      unless a field before it closes the connection. */
  lemma CutHeader(text: Text, checks: Checks, msg: Bytes, h: Header, u: nat, c: nat, n: nat)
    requires StringsOf(msg, h, u, c) && msg[c + 1..c + 33] == h.uploadId && n < c + 37
    ensures ParseHeader(text, checks, msg[..n])
         == if n <= u then Panicked
            else if !text.valid(h.username) then Broke
            else if n <= c then Panicked
            else if !text.valid(h.cookie) || !checks.cookieOk(h.username, h.cookie) then Broke
            else if n >= c + 33 && !checks.known(h.uploadId) then Broke
            else Panicked
  {
    PartStrings(msg, h, u, c, n);
    if n > c && text.valid(h.username) {
      CutBehindStrings(text, checks, msg, h, u, c, n);
    }
  }

  lemma StringsOfEncoded(f: Fields, h: Header)
    requires f.numChunks < TWO_TO_THE_64 && f.imageLen < 0x1_0000_0000
    requires NoNul(f.username) && NoNul(f.cookie)
    requires h.username == f.username && h.cookie == f.cookie && h.uploadId == f.uploadId
    ensures var u, c := 8 + |h.username|, 9 + |h.username| + |h.cookie|;
            StringsOf(EncodeFields(f), h, u, c) && EncodeFields(f)[c + 1..c + 33] == h.uploadId
  {
    var count, image := ToLe(f.numChunks, 8), ToLe(f.imageLen, 4);
    Regroup(count + f.username + [0] + f.cookie + [0], f.uploadId, image, f.tail);
    HeaderStrings(count, f.username, f.cookie, f.uploadId + (image + f.tail));
    FieldsAt(EncodeFields(f), 8 + |f.username|, 9 + |f.username| + |f.cookie|, f.uploadId, image, f.tail);
  }

  /** The same for a client's header cut off after `n` bytes. */
  lemma HeaderCutShort(text: Text, checks: Checks, h: Header, entries: seq<(Digest, Bytes)>, n: nat)
    requires h.numChunks < TWO_TO_THE_64 && h.imageLen < 0x1_0000_0000
    requires NoNul(h.username) && NoNul(h.cookie)
    requires n < 46 + |h.username| + |h.cookie|
    ensures n <= |EncodeHeader(h, entries)|
    ensures var u, c := 8 + |h.username|, 9 + |h.username| + |h.cookie|;
            ParseHeader(text, checks, EncodeHeader(h, entries)[..n])
            == if n <= u then Panicked
               else if !text.valid(h.username) then Broke
               else if n <= c then Panicked
               else if !text.valid(h.cookie) || !checks.cookieOk(h.username, h.cookie) then Broke
               else if n >= c + 33 && !checks.known(h.uploadId) then Broke
               else Panicked
  {
    StringsOfEncoded(FieldsFor(h, entries), h);
    CutHeader(text, checks, EncodeHeader(h, entries), h, 8 + |h.username|, 9 + |h.username| + |h.cookie|, n);
  }

  lemma AcceptedCredentials(text: Text, checks: Checks, msg: Bytes, userEnd: nat, cookieEnd: nat)
    requires LawfulText(text) && 8 <= userEnd < cookieEnd < |msg|
    requires NoNul(msg[8..userEnd]) && NoNul(msg[userEnd + 1..cookieEnd])
    requires ParseCredentials(text, checks, msg, userEnd, cookieEnd).Accepted?
    ensures var h := ParseCredentials(text, checks, msg, userEnd, cookieEnd).value;
            && Acceptable(checks, h)
            && NoNul(h.username) && NoNul(h.cookie)
            && forall d :: d in h.files ==> NoNul(h.files[d])
  {
    TailNamesNoNul(text, msg[cookieEnd + 37..]);
  }

  /** Whatever the bytes, an accepted header has passed every check and its
      file names are free of NULs. */
  lemma AcceptedHeader(text: Text, checks: Checks, msg: Bytes)
    requires LawfulText(text)
    requires ParseHeader(text, checks, msg).Accepted?
    ensures var h := ParseHeader(text, checks, msg).value;
            && Acceptable(checks, h)
            && NoNul(h.username) && NoNul(h.cookie)
            && forall d :: d in h.files ==> NoNul(h.files[d])
  {
    var userEnd := FindNul(msg, 8).value;
    AcceptedCredentials(text, checks, msg, userEnd, FindNul(msg, userEnd + 1).value);
  }

  // ---------- chunk headers ----------

  datatype Chunk = Chunk(len: nat, file: Digest)

  function ParseChunk(msg: Bytes): Parsed<Chunk> {
    if |msg| < 40 then Panicked else Accepted(Chunk(FromLe(msg[0..8]), msg[8..40]))
  }

  function EncodeChunk(c: Chunk): Bytes {
    ToLe(c.len, 8) + c.file
  }

  lemma ChunkRoundTrip(c: Chunk)
    requires c.len < TWO_TO_THE_64
    ensures ParseChunk(EncodeChunk(c)) == Accepted(c)
  {
    U64RoundTrip(c.len);
    assert EncodeChunk(c)[0..8] == ToLe(c.len, 8);
    assert EncodeChunk(c)[8..40] == c.file;
  }

  /** Of a longer message the first 40 bytes count; a shorter one panics. */
  lemma ChunkOutcome(c: Chunk, rest: Bytes, short: Bytes)
    requires c.len < TWO_TO_THE_64 && |short| < 40
    ensures ParseChunk(EncodeChunk(c) + rest) == Accepted(c)
    ensures ParseChunk(short) == Panicked
  {
    ChunkRoundTrip(c);
    var msg := EncodeChunk(c) + rest;
    assert msg[0..8] == EncodeChunk(c)[0..8] && msg[8..40] == EncodeChunk(c)[8..40];
  }

  // ---------- download requests ----------

  datatype Request = Request(username: Bytes, cookie: Bytes, softwareId: nat)

  /** Both strings are unwrapped, so text that is not UTF-8 panics here. */
  function ParseRequest(text: Text, cookieOk: (Bytes, Bytes) -> bool, msg: Bytes): Parsed<Request> {
    if msg == [] then Broke
    else match FindNul(msg, 0)
      case None => Panicked
      case Some(userEnd) =>
        if !text.valid(msg[..userEnd]) || |msg| < userEnd + 1 + COOKIE_LEN then Panicked
        else
          var cookie := msg[userEnd + 1..userEnd + 1 + COOKIE_LEN];
          if !text.valid(cookie) then Panicked
          else if !cookieOk(msg[..userEnd], cookie) then Broke
          else if |msg| < userEnd + 52 + 8 then Panicked
          else Accepted(Request(msg[..userEnd], cookie, FromLe(msg[userEnd + 52..userEnd + 52 + 8])))
  }

  function EncodeRequest(r: Request): Bytes {
    r.username + [0] + r.cookie + [0] + ToLe(r.softwareId, 8)
  }

  /** A request with any byte behind the cookie and any bytes behind the id. */
  function RequestWith(r: Request, sep: byte, rest: Bytes): Bytes {
    r.username + [0] + r.cookie + [sep] + (ToLe(r.softwareId, 8) + rest)
  }

  /** `msg` carries the fields of `r`, its name ending at `u`. */
  ghost predicate CarriesRequest(msg: Bytes, r: Request, u: nat) {
    && |msg| >= u + 60
    && FindNul(msg, 0) == Some(u) && msg[..u] == r.username
    && msg[u + 1..u + 51] == r.cookie
    && FromLe(msg[u + 52..u + 60]) == r.softwareId
  }

  lemma RequestNumbers(name: Bytes, cookie: Bytes, sep: byte, id: Bytes, rest: Bytes, msg: Bytes)
    requires |cookie| == COOKIE_LEN && |id| == 8 && msg == (name + [0] + cookie + [sep]) + (id + rest)
    ensures |msg| >= |name| + 60
    ensures msg[|name| + 1..|name| + 51] == cookie
    ensures msg[|name| + 52..|name| + 60] == id
  {
  }

  lemma RequestFields(r: Request, sep: byte, rest: Bytes)
    requires NoNul(r.username) && |r.cookie| == COOKIE_LEN && r.softwareId < TWO_TO_THE_64
    ensures CarriesRequest(RequestWith(r, sep, rest), r, |r.username|)
  {
    var id := ToLe(r.softwareId, 8);
    var msg, after := RequestWith(r, sep, rest), r.cookie + [sep] + (id + rest);
    U64RoundTrip(r.softwareId);
    RequestNumbers(r.username, r.cookie, sep, id, rest, msg);
    assert msg == [] + r.username + [0] + after;
    StringAt([], r.username, after);
  }

  lemma CarriedRequest(text: Text, cookieOk: (Bytes, Bytes) -> bool, msg: Bytes, r: Request, u: nat)
    requires CarriesRequest(msg, r, u) && |r.cookie| == COOKIE_LEN
    ensures ParseRequest(text, cookieOk, msg)
         == if !text.valid(r.username) || !text.valid(r.cookie) then Panicked
            else if cookieOk(r.username, r.cookie) then Accepted(r) else Broke
  {
  }

  /** What becomes of any request: the byte behind the cookie and bytes behind the
      id do not count, strings that are not text panic. */
  lemma RequestOutcome(text: Text, cookieOk: (Bytes, Bytes) -> bool, r: Request, sep: byte, rest: Bytes)
    requires NoNul(r.username) && |r.cookie| == 50 && r.softwareId < TWO_TO_THE_64
    ensures ParseRequest(text, cookieOk, RequestWith(r, sep, rest))
         == if !text.valid(r.username) || !text.valid(r.cookie) then Panicked
            else if cookieOk(r.username, r.cookie) then Accepted(r) else Broke
  {
    RequestFields(r, sep, rest);
    CarriedRequest(text, cookieOk, RequestWith(r, sep, rest), r, |r.username|);
  }

  lemma RequestRoundTrip(text: Text, cookieOk: (Bytes, Bytes) -> bool, r: Request)
    requires Sendable(text, r.username) && text.valid(r.cookie)
    requires |r.cookie| == COOKIE_LEN && r.softwareId < TWO_TO_THE_64
    ensures ParseRequest(text, cookieOk, EncodeRequest(r))
         == if cookieOk(r.username, r.cookie) then Accepted(r) else Broke
  {
    RequestOutcome(text, cookieOk, r, 0, []);
    assert ToLe(r.softwareId, 8) + [] == ToLe(r.softwareId, 8);
  }

  /** A request closes the connection if it is empty and panics if it is too short. */
  lemma ShortRequests(text: Text, cookieOk: (Bytes, Bytes) -> bool, name: Bytes, rest: Bytes)
    requires NoNul(name)
    ensures ParseRequest(text, cookieOk, []) == Broke
    ensures name != [] ==> ParseRequest(text, cookieOk, name) == Panicked
    ensures |rest| < 50 ==> ParseRequest(text, cookieOk, name + [0] + rest) == Panicked
  {
    NoNulFound(name, 0);
    StringAt([], name, rest);
    assert [] + name + [0] + rest == name + [0] + rest;
  }

  // ---------- the header of each file sent ----------

  datatype FileHeader = FileHeader(hash: Digest, name: Bytes, size: nat)

  function EncodeFileHeader(f: FileHeader): Bytes {
    f.hash + f.name + [0] + ToLe(f.size, 8)
  }

  /** How a client reads a file header. */
  function DecodeFileHeader(msg: Bytes): Option<FileHeader> {
    if |msg| < 32 then None
    else match FindNul(msg, 32)
      case None => None
      case Some(end) =>
        if |msg| != end + 9 then None
        else Some(FileHeader(msg[..32], msg[32..end], FromLe(msg[end + 1..])))
  }

  /** Where the fields of a file header stand. */
  lemma FileHeaderLayout(f: FileHeader, i: nat)
    requires i < 8
    ensures var msg, end := EncodeFileHeader(f), 32 + |f.name|;
            && |msg| == end + 9 && msg[..32] == f.hash && msg[32..end] == f.name && msg[end] == 0
            && msg[end + 1 + i] as nat == f.size / Pow256(i) % 256
  {
    var msg, end := EncodeFileHeader(f), 32 + |f.name|;
    LeDigits(f.size, 8, i);
    assert msg == (f.hash + f.name + [0]) + ToLe(f.size, 8);
    assert msg[..32] == f.hash && msg[32..end] == f.name;
  }

  lemma FileHeaderRoundTrip(f: FileHeader)
    requires NoNul(f.name) && f.size < TWO_TO_THE_64
    ensures DecodeFileHeader(EncodeFileHeader(f)) == Some(f)
  {
    var size := ToLe(f.size, 8);
    var msg := EncodeFileHeader(f);
    U64RoundTrip(f.size);
    FindNulAfter(f.hash, f.name, size);
    var end := 32 + |f.name|;
    assert msg[..32] == f.hash;
    assert msg[32..end] == f.name;
    assert msg == (f.hash + f.name + [0]) + size;
    assert msg[end + 1..] == size;
  }
}
