/** What a download sends, and how a client puts it together again. */
module DownloadStream {
  import opened Common
  import opened Frames

  const READ_LEN: nat := 8192

  /** A file as the client ends up with it. */
  datatype Received = Received(hash: Digest, name: Bytes, content: Bytes)

  /** One file on the wire: its header, then its content in pieces. */
  datatype Transfer = Transfer(file: Received, pieces: seq<Bytes>)

  ghost predicate Pieces(pieces: seq<Bytes>, content: Bytes) {
    && Concat(pieces) == content
    && forall p :: p in pieces ==> 1 <= |p| <= 8192
  }

  ghost predicate TransferOk(t: Transfer) {
    && Pieces(t.pieces, t.file.content)
    && NoNul(t.file.name)
    && |t.file.content| < TWO_TO_THE_64
  }

  function Header(f: Received): FileHeader {
    FileHeader(f.hash, f.name, |f.content|)
  }

  function Messages(ts: seq<Transfer>): seq<Bytes> {
    if ts == [] then []
    else [EncodeFileHeader(Header(ts[0].file))] + ts[0].pieces + Messages(ts[1..])
  }

  function Files(ts: seq<Transfer>): seq<Received> {
    seq(|ts|, i requires 0 <= i < |ts| => ts[i].file)
  }

  // ---------- the client ----------

  /** Collect messages until `size` bytes have arrived. */
  function Collect(msgs: seq<Bytes>, size: nat): (r: Option<(Bytes, seq<Bytes>)>)
    ensures r.Some? ==> |r.value.1| <= |msgs|
    decreases |msgs|
  {
    if size == 0 then Some(([], msgs))
    else if msgs == [] || |msgs[0]| > size then None
    else match Collect(msgs[1..], size - |msgs[0]|)
      case None => None
      case Some((content, rest)) => Some((msgs[0] + content, rest))
  }

  function Decode(msgs: seq<Bytes>): Option<seq<Received>>
    decreases |msgs|
  {
    if msgs == [] then Some([])
    else match DecodeFileHeader(msgs[0])
      case None => None
      case Some(h) =>
        match Collect(msgs[1..], h.size)
        case None => None
        case Some((content, rest)) =>
          match Decode(rest)
          case None => None
          case Some(more) => Some([Received(h.hash, h.name, content)] + more)
  }

  lemma {:induction false} CollectPieces(pieces: seq<Bytes>, rest: seq<Bytes>)
    requires forall p :: p in pieces ==> 1 <= |p|
    ensures Collect(pieces + rest, |Concat(pieces)|) == Some((Concat(pieces), rest))
    decreases |pieces|
  {
    if pieces == [] {
      assert pieces + rest == rest;
    } else {
      var tail := pieces[1..];
      assert (pieces + rest)[1..] == tail + rest;
      assert pieces[0] in pieces;
      CollectPieces(tail, rest);
    }
  }

  lemma DecodeOne(t: Transfer, rest: seq<Bytes>)
    requires TransferOk(t) && Decode(rest).Some?
    ensures Decode([EncodeFileHeader(Header(t.file))] + t.pieces + rest) == Some([t.file] + Decode(rest).value)
  {
    var first := EncodeFileHeader(Header(t.file));
    var msgs := [first] + t.pieces + rest;
    FileHeaderRoundTrip(Header(t.file));
    CollectPieces(t.pieces, rest);
    assert msgs[0] == first && msgs[1..] == t.pieces + rest;
  }

  /** However the contents were cut into pieces, the client recovers exactly the
      files that were sent: hash, name and content, in order. */
  lemma {:induction false} DecodeMessages(ts: seq<Transfer>)
    requires forall t :: t in ts ==> TransferOk(t)
    ensures Decode(Messages(ts)) == Some(Files(ts))
    decreases |ts|
  {
    if ts == [] {
    } else {
      var t, more := ts[0], ts[1..];
      assert t in ts && Files(ts) == [t.file] + Files(more);
      DecodeMessages(more);
      DecodeOne(t, Messages(more));
      assert Messages(ts) == [EncodeFileHeader(Header(t.file))] + t.pieces + Messages(more);
    }
  }

  lemma MessagesAppend(ts: seq<Transfer>, t: Transfer)
    ensures Messages(ts + [t]) == Messages(ts) + ([EncodeFileHeader(Header(t.file))] + t.pieces)
  {
    if ts == [] {
      assert ts + [t] == [t];
      assert Messages([t]) == [EncodeFileHeader(Header(t.file))] + t.pieces + Messages([t][1..]);
    } else {
      assert (ts + [t])[1..] == ts[1..] + [t];
      MessagesAppend(ts[1..], t);
      Assoc([EncodeFileHeader(Header(ts[0].file))] + ts[0].pieces, Messages(ts[1..]),
            [EncodeFileHeader(Header(t.file))] + t.pieces);
    }
  }

  // ---------- the server ----------

  /** `got` is every file of the table once, with the stored content. */
  ghost predicate Delivered(files: map<Digest, Bytes>, game: map<Digest, Bytes>, got: seq<Received>) {
    && (forall i, j :: 0 <= i < j < |got| ==> got[i].hash != got[j].hash)
    && (forall f :: f in got ==>
          f.hash in files && f.name == files[f.hash] && f.hash in game && f.content == game[f.hash])
    && (forall h :: h in files ==> exists f :: f in got && f.hash == h)
  }

  /** Names a client can read back, and sizes that fit the 64-bit length field. */
  ghost predicate Sendable(files: map<Digest, Bytes>, game: map<Digest, Bytes>) {
    && (forall h :: h in files ==> NoNul(files[h]))
    && (forall h :: h in files && h in game ==> |game[h]| < TWO_TO_THE_64)
  }

  /** Read a file to its end and send what each read returns; a read may return
      fewer bytes than the buffer holds. */
  method SendContent(content: Bytes) returns (pieces: seq<Bytes>)
    ensures Pieces(pieces, content)
  {
    pieces := [];
    var at := 0;
    while at < |content|
      invariant 0 <= at <= |content|
      invariant Pieces(pieces, content[..at])
    {
      assert 1 <= READ_LEN && at + 1 <= |content|;
      var n :| 1 <= n && n <= READ_LEN && at + n <= |content|;
      var piece := content[at..at + n];
      ConcatSnoc(pieces, piece);
      assert content[..at] + piece == content[..at + n];
      pieces := pieces + [piece];
      at := at + n;
    }
    assert content[..at] == content;
  }

  /** `t` sends a file of the table with its stored content. */
  ghost predicate Sends(files: map<Digest, Bytes>, game: map<Digest, Bytes>, t: Transfer) {
    && t.file.hash in files && t.file.name == files[t.file.hash]
    && t.file.hash in game && t.file.content == game[t.file.hash]
    && Pieces(t.pieces, t.file.content)
  }

  /** The files `sent`, each once, and nothing else. */
  ghost predicate SentSoFar(files: map<Digest, Bytes>, game: map<Digest, Bytes>, sent: set<Digest>, ts: seq<Transfer>) {
    && (forall t :: t in ts ==> Sends(files, game, t))
    && Enumerates(Hashes(ts), sent)
  }

  function Hashes(ts: seq<Transfer>): (r: seq<Digest>)
    ensures |r| == |ts|
    ensures forall i :: 0 <= i < |ts| ==> r[i] == ts[i].file.hash
  {
    seq(|ts|, i requires 0 <= i < |ts| => ts[i].file.hash)
  }

  lemma SentOneMore(files: map<Digest, Bytes>, game: map<Digest, Bytes>, sent: set<Digest>, ts: seq<Transfer>,
                    t: Transfer)
    requires SentSoFar(files, game, sent, ts)
    requires t.file.hash !in sent && Sends(files, game, t)
    ensures SentSoFar(files, game, sent + {t.file.hash}, ts + [t])
  {
    assert Hashes(ts + [t]) == Hashes(ts) + [t.file.hash];
  }

  lemma SentIsDelivered(files: map<Digest, Bytes>, game: map<Digest, Bytes>, ts: seq<Transfer>)
    requires SentSoFar(files, game, files.Keys, ts)
    ensures Delivered(files, game, Files(ts))
  {
    var got := Files(ts);
    forall f | f in got
      ensures f.hash in files && f.name == files[f.hash] && f.hash in game && f.content == game[f.hash]
    {
      var i :| 0 <= i < |got| && got[i] == f;
      assert Sends(files, game, ts[i]);
    }
    forall i, j | 0 <= i < j < |got| ensures got[i].hash != got[j].hash {
      assert Hashes(ts)[i] != Hashes(ts)[j];
    }
    forall h | h in files ensures exists f :: f in got && f.hash == h {
      assert h in Hashes(ts);
      var i :| 0 <= i < |ts| && Hashes(ts)[i] == h;
      assert got[i] in got && got[i].hash == h;
    }
  }

  lemma SentDecodes(files: map<Digest, Bytes>, game: map<Digest, Bytes>, ts: seq<Transfer>)
    requires SentSoFar(files, game, files.Keys, ts) && Sendable(files, game)
    ensures Decode(Messages(ts)) == Some(Files(ts))
  {
    forall t | t in ts ensures TransferOk(t) {
      assert Sends(files, game, t);
    }
    DecodeMessages(ts);
  }

  /** The reply to an accepted request: it goes through exactly when no file is
      missing, and then a client decodes it to every listed file, byte for byte. */
  method SendFiles(files: map<Digest, Bytes>, game: map<Digest, Bytes>) returns (sent: bool, msgs: seq<Bytes>)
    ensures sent <==> files.Keys <= game.Keys
    ensures sent && Sendable(files, game) ==> Decode(msgs).Some? && Delivered(files, game, Decode(msgs).value)
  {
    var left := files.Keys;
    msgs := [];
    ghost var ts: seq<Transfer> := [];
    while left != {}
      invariant left <= files.Keys && files.Keys - left <= game.Keys
      invariant SentSoFar(files, game, files.Keys - left, ts)
      invariant msgs == Messages(ts)
      decreases left
    {
      var h :| h in left;
      if h !in game {
        return false, msgs;
      }
      ghost var t;
      msgs, t := SendOne(msgs, h, files[h], game[h], ts);
      SentOneMore(files, game, files.Keys - left, ts, t);
      ts := ts + [t];
      assert files.Keys - left + {h} == files.Keys - (left - {h});
      left := left - {h};
    }
    assert files.Keys - left == files.Keys;
    SentIsDelivered(files, game, ts);
    if Sendable(files, game) {
      SentDecodes(files, game, ts);
    }
    sent := true;
  }

  /** The header of a file, then its content. */
  method SendOne(msgs: seq<Bytes>, h: Digest, name: Bytes, content: Bytes, ghost ts: seq<Transfer>)
    returns (msgs': seq<Bytes>, ghost t: Transfer)
    requires msgs == Messages(ts)
    ensures msgs' == Messages(ts + [t])
    ensures t.file == Received(h, name, content) && Pieces(t.pieces, content)
  {
    var pieces := SendContent(content);
    t := Transfer(Received(h, name, content), pieces);
    MessagesAppend(ts, t);
    msgs' := msgs + ([EncodeFileHeader(FileHeader(h, name, |content|))] + pieces);
  }
}
