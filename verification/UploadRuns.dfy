/** Whole runs of one upload connection: what any sequence of messages leaves in
    the cached files, and exactly when the sequence a client sends publishes. */
module UploadRuns {
  import opened Common
  import opened Frames
  import opened Uploads

  // ---------- any messages at all ----------

  function Deliver(env: Env, s: Store, c: Conn, deliveries: seq<(Bytes, Input)>): (Store, Conn)
    decreases |deliveries|
  {
    if deliveries == [] then (s, c)
    else
      var (s1, c1) := OnMessage(env, s, c, deliveries[0].0, deliveries[0].1);
      Deliver(env, s1, c1, deliveries[1..])
  }

  /** Each cached file is what it was in `s0` followed by the connection's own
      chunks for it, in the order they arrived. */
  ghost predicate Appended(s0: Store, s: Store, c: Conn) {
    c.status == Running || c.status == Broken ==>
      forall d :: Contents(s.cached, d) == Contents(s0.cached, d) + Tagged(c.written, d)
  }

  lemma PayloadAppends(env: Env, s0: Store, s: Store, c: Conn, session: Session, chunk: Chunk, msg: Bytes)
    requires Appended(s0, s, c) && c.status == Running
    ensures var (s1, c1) := OnPayload(env, s, c, session, chunk, msg); Appended(s0, s1, c1)
  {
    var (s1, c1) := OnPayload(env, s, c, session, chunk, msg);
    var w := (chunk.file, msg);
    TotalLenAppend(c.written, w);
    if c1.status == Running && c1.written != c.written {
      assert c1.written == c.written + [w];
      forall d ensures Contents(s1.cached, d) == Contents(s0.cached, d) + Tagged(c1.written, d) {
        assert Contents(s.cached, d) == Contents(s0.cached, d) + Tagged(c.written, d);
      }
    } else {
      assert c1.status == Panic || (c1.written == c.written && s1 == s);
    }
  }

  lemma MessageAppends(env: Env, s0: Store, s: Store, c: Conn, msg: Bytes, inp: Input)
    requires Appended(s0, s, c)
    ensures var (s1, c1) := OnMessage(env, s, c, msg, inp); Appended(s0, s1, c1)
  {
    var (s1, c1) := OnMessage(env, s, c, msg, inp);
    if c.status == Running {
      match c.session
      case None =>
        assert s1 == s && c1.written == c.written;
      case Some(session) =>
        if c.numChunks == session.header.numChunks {
          if !c.uploadedImage {
            assert s1 == s && c1.written == c.written;
          }
        } else if c.chunk.Some? {
          PayloadAppends(env, s0, s, c, session, c.chunk.value, msg);
        } else {
          assert s1 == s && c1.written == c.written;
        }
    }
  }

  lemma {:induction false} DeliverAppends(env: Env, s0: Store, s: Store, c: Conn, deliveries: seq<(Bytes, Input)>)
    requires Appended(s0, s, c)
    ensures var (s1, c1) := Deliver(env, s, c, deliveries); Appended(s0, s1, c1)
    decreases |deliveries|
  {
    if deliveries == [] {
    } else {
      var (msg, inp) := deliveries[0];
      var (s1, c1) := OnMessage(env, s, c, msg, inp);
      MessageAppends(env, s0, s, c, msg, inp);
      DeliverAppends(env, s0, s1, c1, deliveries[1..]);
    }
  }

  /** On every run of a fresh connection that has not panicked or published,
      each cached file is its prior content and then the tagged chunks in order. */
  lemma CachedFilesAreAppended(env: Env, s0: Store, deliveries: seq<(Bytes, Input)>, d: Digest)
    ensures var (s1, c1) := Deliver(env, s0, NewConn(), deliveries);
            c1.status == Running || c1.status == Broken ==>
              Contents(s1.cached, d) == Contents(s0.cached, d) + Tagged(c1.written, d)
  {
    DeliverAppends(env, s0, s0, NewConn(), deliveries);
  }

  // ---------- the messages a client sends ----------

  /** What a client uploads: a header, its file list, and tagged chunks. */
  datatype Upload = Upload(header: Header, entries: seq<(Digest, Bytes)>, chunks: seq<(Digest, Bytes)>)

  function ChunkMessages(chunks: seq<(Digest, Bytes)>): seq<Bytes> {
    if chunks == [] then []
    else [EncodeChunk(Chunk(|chunks[0].1|, chunks[0].0)), chunks[0].1] + ChunkMessages(chunks[1..])
  }

  function ClientMessages(u: Upload, imageHash: Digest, image: Bytes, last: Bytes): seq<Bytes> {
    [EncodeHeader(u.header, u.entries)] + (ChunkMessages(u.chunks) + [imageHash, image, last])
  }

  function Receive(env: Env, s: Store, c: Conn, msgs: seq<Bytes>, inp: Input): (Store, Conn)
    decreases |msgs|
  {
    if msgs == [] then (s, c)
    else
      var (s1, c1) := OnMessage(env, s, c, msgs[0], inp);
      Receive(env, s1, c1, msgs[1..], inp)
  }

  function Tags(chunks: seq<(Digest, Bytes)>): set<Digest> {
    set w | w in chunks :: w.0
  }

  /** Chunks fit the buffer and the first of each file passes the type test. */
  ghost predicate GoodChunks(env: Env, chunks: seq<(Digest, Bytes)>) {
    forall i :: 0 <= i < |chunks| ==>
      |chunks[i].1| <= CHUNK_BUFFER_LEN && (chunks[i].0 !in Tags(chunks[..i]) ==> env.isZst(chunks[i].1))
  }

  /** `cached` is `prior` with the chunks `done` appended to their files. */
  ghost predicate Holds(prior: map<Digest, Bytes>, cached: map<Digest, Bytes>, done: seq<(Digest, Bytes)>) {
    && cached.Keys == prior.Keys + Tags(done)
    && forall d :: Contents(cached, d) == Contents(prior, d) + Tagged(done, d)
  }

  /** The connection between chunks, `done` being those taken so far. */
  function ConnAfter(session: Session, done: seq<(Digest, Bytes)>): Conn {
    Conn(Running, Some(session), TotalLen(done), |done|, 0, None, None, false, Tags(done), TotalLen(done), done)
  }

  ghost predicate MidUpload(s0: Store, s: Store, c: Conn, session: Session, done: seq<(Digest, Bytes)>) {
    && c == ConnAfter(session, done)
    && s == s0.(cached := s.cached)
    && Holds(s0.cached, s.cached, done)
  }

  lemma TagsAppend(done: seq<(Digest, Bytes)>, w: (Digest, Bytes))
    ensures Tags(done + [w]) == Tags(done) + {w.0}
  {
    forall d | d in Tags(done) ensures d in Tags(done + [w]) {
      var x :| x in done && x.0 == d;
      assert x in done + [w];
    }
    assert w in done + [w];
  }

  lemma {:induction false} TotalLenPrefix(done: seq<(Digest, Bytes)>, todo: seq<(Digest, Bytes)>)
    ensures TotalLen(done) <= TotalLen(done + todo)
    decreases |todo|
  {
    if todo == [] {
      assert done + todo == done;
    } else {
      var n := |todo| - 1;
      TotalLenPrefix(done, todo[..n]);
      assert done + todo == (done + todo[..n]) + [todo[n]];
      TotalLenAppend(done + todo[..n], todo[n]);
    }
  }

  /** A payload message that completes its chunk. */
  lemma PayloadTaken(env: Env, s: Store, c: Conn, session: Session, chunk: Chunk, msg: Bytes)
    requires c.buffered == 0 && |msg| == chunk.len <= CHUNK_BUFFER_LEN
    requires c.totalSize + |msg| <= session.item.compressedSize < TWO_TO_THE_64
    requires chunk.file in c.seen || env.isZst(msg)
    ensures OnPayload(env, s, c, session, chunk, msg)
         == (s.(cached := s.cached[chunk.file := Contents(s.cached, chunk.file) + msg]),
             c.(totalSize := c.totalSize + |msg|, payload := c.payload + |msg|,
                written := c.written + [(chunk.file, msg)], seen := c.seen + {chunk.file},
                buffered := 0, chunk := None, numChunks := c.numChunks + 1))
  {
    WrapIdentity(c.totalSize + |msg|);
  }

  lemma HoldsOneMore(prior: map<Digest, Bytes>, cached: map<Digest, Bytes>, done: seq<(Digest, Bytes)>,
                     w: (Digest, Bytes))
    requires Holds(prior, cached, done)
    ensures Holds(prior, cached[w.0 := Contents(cached, w.0) + w.1], done + [w])
  {
    TagsAppend(done, w);
    TotalLenAppend(done, w);
    var cached' := cached[w.0 := Contents(cached, w.0) + w.1];
    forall d ensures Contents(cached', d) == Contents(prior, d) + Tagged(done + [w], d) {
      Assoc(Contents(prior, d), Tagged(done, d), if w.0 == d then w.1 else []);
    }
  }

  // ---------- the type test ----------

  /** What a connection that has not panicked knows about its chunks. */
  ghost predicate Typed(env: Env, c: Conn) {
    c.status != Panic ==> c.seen == Tags(c.written) && GoodChunks(env, c.written)
  }

  lemma GoodChunksMore(env: Env, done: seq<(Digest, Bytes)>, w: (Digest, Bytes))
    requires GoodChunks(env, done)
    requires |w.1| <= CHUNK_BUFFER_LEN && (w.0 !in Tags(done) ==> env.isZst(w.1))
    ensures GoodChunks(env, done + [w])
  {
    var all := done + [w];
    forall i | 0 <= i < |all|
      ensures |all[i].1| <= CHUNK_BUFFER_LEN && (all[i].0 !in Tags(all[..i]) ==> env.isZst(all[i].1))
    {
      if i < |done| {
        assert all[..i] == done[..i];
      } else {
        assert all[..i] == done;
      }
    }
  }

  lemma PayloadTyped(env: Env, s: Store, c: Conn, session: Session, chunk: Chunk, msg: Bytes)
    requires Typed(env, c) && c.status == Running
    ensures Typed(env, OnPayload(env, s, c, session, chunk, msg).1)
  {
    var c' := OnPayload(env, s, c, session, chunk, msg).1;
    if c'.status != Panic && c'.written != c.written {
      assert c'.written == c.written + [(chunk.file, msg)];
      TagsAppend(c.written, (chunk.file, msg));
      GoodChunksMore(env, c.written, (chunk.file, msg));
    }
  }

  lemma MessageTyped(env: Env, s: Store, c: Conn, msg: Bytes, inp: Input)
    requires Typed(env, c)
    ensures Typed(env, OnMessage(env, s, c, msg, inp).1)
  {
    if c.status == Running && c.session.Some? && c.numChunks != c.session.value.header.numChunks && c.chunk.Some? {
      PayloadTyped(env, s, c, c.session.value, c.chunk.value, msg);
    } else {
      var c' := OnMessage(env, s, c, msg, inp).1;
      assert c'.written == c.written && c'.seen == c.seen;
    }
  }

  lemma {:induction false} DeliverTyped(env: Env, s: Store, c: Conn, deliveries: seq<(Bytes, Input)>)
    requires Typed(env, c)
    ensures Typed(env, Deliver(env, s, c, deliveries).1)
    decreases |deliveries|
  {
    if deliveries == [] {
    } else {
      var (msg, inp) := deliveries[0];
      var (s1, c1) := OnMessage(env, s, c, msg, inp);
      MessageTyped(env, s, c, msg, inp);
      DeliverTyped(env, s1, c1, deliveries[1..]);
    }
  }

  /** On every run that has not panicked, the first chunk the connection appended
      to each file passed the type test, and every chunk fitted the buffer. */
  lemma FirstChunksTyped(env: Env, s: Store, deliveries: seq<(Bytes, Input)>)
    ensures var c := Deliver(env, s, NewConn(), deliveries).1;
            c.status != Panic ==> GoodChunks(env, c.written)
  {
    DeliverTyped(env, s, NewConn(), deliveries);
  }

  // ---------- the chunks of a client ----------

  lemma ConnTakes(session: Session, done: seq<(Digest, Bytes)>, w: (Digest, Bytes))
    ensures ConnAfter(session, done + [w])
         == ConnAfter(session, done).(
              totalSize := TotalLen(done) + |w.1|, payload := TotalLen(done) + |w.1|,
              written := done + [w], seen := Tags(done) + {w.0}, numChunks := |done| + 1)
  {
    TotalLenAppend(done, w);
    TagsAppend(done, w);
    assert |done + [w]| == |done| + 1;
  }

  lemma ChunkTaken(env: Env, s0: Store, s: Store, c: Conn, session: Session, done: seq<(Digest, Bytes)>,
                   w: (Digest, Bytes))
    requires MidUpload(s0, s, c.(chunk := None), session, done)
    requires c.chunk == Some(Chunk(|w.1|, w.0))
    requires |w.1| <= CHUNK_BUFFER_LEN && (w.0 !in Tags(done) ==> env.isZst(w.1))
    requires TotalLen(done + [w]) <= session.item.compressedSize < TWO_TO_THE_64
    ensures var (s1, c1) := OnPayload(env, s, c, session, c.chunk.value, w.1);
            MidUpload(s0, s1, c1, session, done + [w])
  {
    assert c.totalSize == TotalLen(done) && c.buffered == 0 && c.seen == Tags(done);
    ConnTakes(session, done, w);
    PayloadTaken(env, s, c, session, c.chunk.value, w.1);
    HoldsOneMore(s0.cached, s.cached, done, w);
  }

  /** A chunk header and its payload, message by message. */
  lemma ChunkDispatch(env: Env, s: Store, c: Conn, session: Session, chunk: Chunk, payload: Bytes, inp: Input)
    requires c.status == Running && c.session == Some(session) && c.chunk.None?
    requires c.numChunks != session.header.numChunks && chunk.len < TWO_TO_THE_64
    ensures OnMessage(env, s, c, EncodeChunk(chunk), inp) == (s, c.(chunk := Some(chunk)))
    ensures OnMessage(env, s, c.(chunk := Some(chunk)), payload, inp)
         == OnPayload(env, s, c.(chunk := Some(chunk)), session, chunk, payload)
  {
    ChunkRoundTrip(chunk);
  }

  lemma OneChunk(env: Env, s0: Store, s: Store, c: Conn, session: Session, done: seq<(Digest, Bytes)>,
                 w: (Digest, Bytes), inp: Input)
    requires MidUpload(s0, s, c, session, done)
    requires |done| < session.header.numChunks
    requires |w.1| <= CHUNK_BUFFER_LEN && (w.0 !in Tags(done) ==> env.isZst(w.1))
    requires TotalLen(done + [w]) <= session.item.compressedSize < TWO_TO_THE_64
    ensures var (s2, c2) := AfterOne(env, s, c, w, inp);
            MidUpload(s0, s2, c2, session, done + [w])
  {
    var chunk := Chunk(|w.1|, w.0);
    ChunkDispatch(env, s, c, session, chunk, w.1, inp);
    ChunkTaken(env, s0, s, c.(chunk := Some(chunk)), session, done, w);
  }

  lemma ReceiveTwo(env: Env, s: Store, c: Conn, first: Bytes, second: Bytes, rest: seq<Bytes>, inp: Input)
    ensures var (s1, c1) := OnMessage(env, s, c, first, inp);
            var (s2, c2) := OnMessage(env, s1, c1, second, inp);
            Receive(env, s, c, [first, second] + rest, inp) == Receive(env, s2, c2, rest, inp)
  {
    var msgs := [first, second] + rest;
    assert msgs[1..][1..] == rest;
  }

  /** The next chunk of good ones that fit. */
  lemma NextFits(env: Env, done: seq<(Digest, Bytes)>, todo: seq<(Digest, Bytes)>, limit: nat)
    requires todo != [] && GoodChunks(env, done + todo) && TotalLen(done + todo) <= limit
    ensures |todo[0].1| <= CHUNK_BUFFER_LEN && (todo[0].0 !in Tags(done) ==> env.isZst(todo[0].1))
    ensures TotalLen(done + [todo[0]]) <= limit
    ensures done + todo == (done + [todo[0]]) + todo[1..]
  {
    var all := done + todo;
    assert all == (done + [todo[0]]) + todo[1..];
    assert all[|done|] == todo[0] && all[..|done|] == done;
    TotalLenPrefix(done + [todo[0]], todo[1..]);
  }

  /** The store and connection after one more chunk. */
  ghost function AfterOne(env: Env, s: Store, c: Conn, w: (Digest, Bytes), inp: Input): (Store, Conn) {
    var (s1, c1) := OnMessage(env, s, c, EncodeChunk(Chunk(|w.1|, w.0)), inp);
    OnMessage(env, s1, c1, w.1, inp)
  }

  lemma ReceiveChunk(env: Env, s: Store, c: Conn, todo: seq<(Digest, Bytes)>, inp: Input)
    requires todo != []
    ensures var (s2, c2) := AfterOne(env, s, c, todo[0], inp);
            Receive(env, s, c, ChunkMessages(todo), inp) == Receive(env, s2, c2, ChunkMessages(todo[1..]), inp)
  {
    var w := todo[0];
    ReceiveTwo(env, s, c, EncodeChunk(Chunk(|w.1|, w.0)), w.1, ChunkMessages(todo[1..]), inp);
  }

  lemma {:induction false} AllChunks(env: Env, s0: Store, s: Store, c: Conn, session: Session,
                                     done: seq<(Digest, Bytes)>, todo: seq<(Digest, Bytes)>, inp: Input)
    requires MidUpload(s0, s, c, session, done)
    requires |done + todo| <= session.header.numChunks
    requires GoodChunks(env, done + todo)
    requires TotalLen(done + todo) <= session.item.compressedSize < TWO_TO_THE_64
    ensures var (s1, c1) := Receive(env, s, c, ChunkMessages(todo), inp);
            MidUpload(s0, s1, c1, session, done + todo)
    decreases |todo|
  {
    if todo == [] {
      assert done + todo == done;
    } else {
      var w := todo[0];
      NextFits(env, done, todo, session.item.compressedSize);
      OneChunk(env, s0, s, c, session, done, w, inp);
      ReceiveChunk(env, s, c, todo, inp);
      var (s2, c2) := AfterOne(env, s, c, w, inp);
      AllChunks(env, s0, s2, c2, session, done + [w], todo[1..], inp);
    }
  }

  lemma {:induction false} ReceiveAppend(env: Env, s: Store, c: Conn, a: seq<Bytes>, b: seq<Bytes>, inp: Input)
    ensures var (s1, c1) := Receive(env, s, c, a, inp);
            Receive(env, s, c, a + b, inp) == Receive(env, s1, c1, b, inp)
    decreases |a|
  {
    if a == [] {
      assert a + b == b;
    } else {
      var (s1, c1) := OnMessage(env, s, c, a[0], inp);
      assert (a + b)[1..] == a[1..] + b;
      ReceiveAppend(env, s1, c1, a[1..], b, inp);
    }
  }

  // ---------- publication ----------

  ghost predicate Promotable(env: Env, s: Store, h: Digest) {
    h in s.cached && env.hash(s.cached[h]) == h
  }

  /** Moving distinct files succeeds exactly when each is cached and hashes to
      its name, and then every game file is the cached one. */
  lemma {:induction false} PromoteExactly(env: Env, s: Store, order: seq<Digest>)
    requires forall i, j :: 0 <= i < j < |order| ==> order[i] != order[j]
    ensures var (s1, ok) := Promote(env, s, order);
            && (ok <==> forall h :: h in order ==> Promotable(env, s, h))
            && (ok ==> forall h :: h in order ==> h in s1.game && s1.game[h] == s.cached[h])
            && (ok ==> forall h :: h in s1.cached <==> h in s.cached && h !in order)
            && (forall h :: h in s.game && h !in order ==> h in s1.game && s1.game[h] == s.game[h])
            && s1.software == s.software
    decreases |order|
  {
    if order == [] {
    } else {
      var h, rest := order[0], order[1..];
      forall k | k in rest ensures k != h {}
      if Promotable(env, s, h) {
        var s0 := PromoteOne(s, h);
        PromoteExactly(env, s0, rest);
        forall k | k in rest ensures Promotable(env, s, k) <==> Promotable(env, s0, k) {}
        forall k | k in order ensures k == h || k in rest {}
        forall k | k in rest ensures k in order {}
      }
    }
  }

  /** The bytes a published file would hold: leftovers of earlier uploads first. */
  function FinalContent(s: Store, u: Upload, h: Digest): Bytes {
    Contents(s.cached, h) + Tagged(u.chunks, h)
  }

  /** A listed file is there and, leftovers included, hashes to its name. */
  ghost predicate FileReady(env: Env, s: Store, u: Upload, h: Digest) {
    (h in s.cached || h in Tags(u.chunks)) && env.hash(FinalContent(s, u, h)) == h
  }

  /** The limits a client has to keep to for its chunks to be taken at all. */
  ghost predicate Uploadable(env: Env, s: Store, u: Upload, inp: Input)
    requires StoreOk(env, s)
  {
    && Sendable(env.text, u.header.username) && Sendable(env.text, u.header.cookie)
    && (forall e :: e in u.entries ==> Sendable(env.text, e.1))
    && u.header.files == FileTable(u.entries)
    && Acceptable(Checks(inp.cookieOk, d => d in s.uploadIds), u.header)
    && |u.chunks| == u.header.numChunks
    && GoodChunks(env, u.chunks)
    && TotalLen(u.chunks) <= s.software[s.uploadIds[u.header.uploadId]].compressedSize
    && Enumerates(inp.order, u.header.files.Keys)
  }

  ghost predicate WellFormed(env: Env, s: Store, u: Upload, inp: Input)
    requires StoreOk(env, s)
  {
    Uploadable(env, s, u, inp) && inp.imageAccepted
  }

  lemma FinishAlone(env: Env, s0: Store, s: Store, c: Conn, session: Session, u: Upload,
                    imageHash: Digest, image: Bytes, last: Bytes, inp: Input)
    requires MidUpload(s0, s, c, session, u.chunks)
    requires |u.chunks| == session.header.numChunks && session.header == u.header
    requires Enumerates(inp.order, u.header.files.Keys) && inp.imageAccepted
    ensures var (s1, c1) := Receive(env, s, c, [imageHash, image, last], inp);
            && (c1.status == Published || c1.status == Panic) && c1.uploadedImage
            && (c1.status == Panic ==> s1.software == s0.software)
            && (c1.status == Published <==> forall h :: h in u.header.files ==> FileReady(env, s0, u, h))
            && (c1.status == Published ==>
                  && s1.software
                     == s0.software[session.item.id :=
                                      session.item.(files := u.header.files, creationTime := Some(inp.now))]
                  && forall h :: h in u.header.files ==>
                       h in s1.game && s1.game[h] == FinalContent(s0, u, h) && h !in s1.cached)
  {
    var msgs: seq<Bytes> := [imageHash, image, last];
    assert imageHash[..32] == imageHash;
    var c1 := c.(imageHash := Some(imageHash));
    assert OnMessage(env, s, c, imageHash, inp) == (s, c1);
    var c2 := c1.(uploadedImage := true);
    assert OnMessage(env, s, c1, image, inp) == (s, c2);
    assert OnMessage(env, s, c2, last, inp) == OnFinish(env, s, c2, session, inp);
    var (s3, c3) := OnFinish(env, s, c2, session, inp);
    assert Receive(env, s3, c3, [], inp) == (s3, c3);
    assert msgs[1..] == [image, last] && msgs[1..][1..] == [last] && [last][1..] == [];
    assert Receive(env, s, c2, [last], inp) == (s3, c3);
    assert Receive(env, s, c1, [image, last], inp) == (s3, c3);
    assert Receive(env, s, c, msgs, inp) == (s3, c3);
    PromoteExactly(env, s, inp.order);
    forall h | h in u.header.files
      ensures Promotable(env, s, h) <==> FileReady(env, s0, u, h)
      ensures Promotable(env, s, h) ==> s.cached[h] == FinalContent(s0, u, h)
    {
      assert Contents(s.cached, h) == FinalContent(s0, u, h);
    }
  }

  /** The connection once the header of a well-formed upload has been read. */
  ghost function HeaderTaken(env: Env, s: Store, u: Upload, inp: Input): (c: Conn)
    requires LawfulText(env.text) && StoreOk(env, s) && Uploadable(env, s, u, inp)
    ensures OnMessage(env, s, NewConn(), EncodeHeader(u.header, u.entries), inp) == (s, c)
    ensures c.session.Some? && c.session.value.header == u.header
    ensures c.session.value.item == s.software[s.uploadIds[u.header.uploadId]]
    ensures c.session.value.item.id == s.uploadIds[u.header.uploadId]
    ensures c.session.value.item.compressedSize <= MAX_COMPRESSED_SIZE
    ensures MidUpload(s, s, c, c.session.value, [])
  {
    var item := s.software[s.uploadIds[u.header.uploadId]];
    assert ItemOk(s, item);
    HeaderRoundTrip(env.text, Checks(inp.cookieOk, d => d in s.uploadIds), u.header, u.entries);
    NewConn().(session := Some(Session(u.header, item)))
  }

  /** A client's upload, sent whole to a store in order, publishes exactly when
      every listed file is ready; then the item, otherwise unchanged, lists the
      client's files, and the game files hold their bytes and leave the cache. */
  lemma UploadPublishes(env: Env, s: Store, u: Upload, imageHash: Digest, image: Bytes, last: Bytes, inp: Input)
    requires LawfulText(env.text) && StoreOk(env, s) && WellFormed(env, s, u, inp)
    ensures var (s1, c1) := Receive(env, s, NewConn(), ClientMessages(u, imageHash, image, last), inp);
            var id := s.uploadIds[u.header.uploadId];
            && (c1.status == Published || c1.status == Panic) && c1.uploadedImage
            && (c1.status == Published <==> forall h :: h in u.header.files ==> FileReady(env, s, u, h))
            && (c1.status == Panic ==> s1.software == s.software)
            && (c1.status == Published ==>
                  && s1.software
                     == s.software[id := s.software[id].(files := FileTable(u.entries), creationTime := Some(inp.now))]
                  && forall h :: h in u.header.files ==>
                       h in s1.game && s1.game[h] == FinalContent(s, u, h) && h !in s1.cached)
  {
    var (s1, c1) := (s, HeaderTaken(env, s, u, inp));
    var session := c1.session.value;
    var msgs := ClientMessages(u, imageHash, image, last);
    var ending: seq<Bytes> := [imageHash, image, last];
    assert msgs[1..] == ChunkMessages(u.chunks) + ending;
    assert [] + u.chunks == u.chunks;
    AllChunks(env, s, s, c1, session, [], u.chunks, inp);
    ReceiveAppend(env, s, c1, ChunkMessages(u.chunks), ending, inp);
    var (s2, c2) := Receive(env, s, c1, ChunkMessages(u.chunks), inp);
    FinishAlone(env, s, s2, c2, session, u, imageHash, image, last, inp);
  }

  // ---------- the first message ----------

  /** What a header does to a new connection: unknown cookies and upload ids, strings
      that are not text and images of the wrong size close it, too many chunks panic;
      otherwise the session has the header and the item of the upload id. No tree
      changes. */
  lemma FirstMessage(env: Env, s: Store, h: Header, entries: seq<(Digest, Bytes)>, inp: Input)
    requires LawfulText(env.text) && StoreOk(env, s)
    requires h.numChunks < TWO_TO_THE_64 && h.imageLen < 0x1_0000_0000 && NoNul(h.username) && NoNul(h.cookie)
    requires (forall e :: e in entries ==> Sendable(env.text, e.1)) && h.files == FileTable(entries)
    ensures var (s1, c1) := OnMessage(env, s, NewConn(), EncodeHeader(h, entries), inp);
            var known := env.text.valid(h.username) && env.text.valid(h.cookie) && inp.cookieOk(h.username, h.cookie)
                         && h.uploadId in s.uploadIds && 4 <= h.imageLen <= 1_048_576;
            && s1 == s
            && (c1.status == Broken <==> !known)
            && (c1.status == Panic <==> known && h.numChunks > 1280)
            && (known && h.numChunks <= 1280 ==>
                  && c1.status == Running
                  && c1.session == Some(Session(h, s.software[s.uploadIds[h.uploadId]])))
  {
    HeaderRoundTrip(env.text, Checks(inp.cookieOk, d => d in s.uploadIds), h, entries);
  }

  // ---------- the image ----------

  /** The connection of a client whose chunks are all in, over the store they left. */
  lemma AllIn(env: Env, s: Store, u: Upload, more: seq<Bytes>, inp: Input) returns (s2: Store, c2: Conn)
    requires LawfulText(env.text) && StoreOk(env, s) && Uploadable(env, s, u, inp)
    ensures Receive(env, s, NewConn(), [EncodeHeader(u.header, u.entries)] + (ChunkMessages(u.chunks) + more), inp)
         == Receive(env, s2, c2, more, inp)
    ensures c2.session.Some? && c2.session.value.header == u.header
    ensures MidUpload(s, s2, c2, c2.session.value, u.chunks)
  {
    var c1 := HeaderTaken(env, s, u, inp);
    var chunks := ChunkMessages(u.chunks);
    var msgs := [EncodeHeader(u.header, u.entries)] + (chunks + more);
    assert msgs[1..] == chunks + more;
    assert [] + u.chunks == u.chunks;
    AllChunks(env, s, s, c1, c1.session.value, [], u.chunks, inp);
    ReceiveAppend(env, s, c1, chunks, more, inp);
    var r := Receive(env, s, c1, chunks, inp);
    s2, c2 := r.0, r.1;
  }

  /** What the two image messages do once all chunks are in. */
  lemma ImageMessages(env: Env, s: Store, c: Conn, session: Session, first: Bytes, image: Bytes, last: Bytes,
                      inp: Input)
    requires c.status == Running && c.session == Some(session) && c.numChunks == session.header.numChunks
    requires !c.uploadedImage && c.imageHash.None? && !inp.imageAccepted
    ensures var (s1, c1) := Receive(env, s, c, [first, image, last], inp);
            s1 == s && c1.status == if |first| < 32 then Panic else Broken
  {
    var (s1, c1) := OnMessage(env, s, c, first, inp);
    var (s2, c2) := OnMessage(env, s1, c1, image, inp);
    ReceiveThree(env, s, c, first, image, last, inp);
    assert s1 == s && s2 == s && OnMessage(env, s2, c2, last, inp) == (s2, c2);
  }

  lemma ReceiveThree(env: Env, s: Store, c: Conn, a: Bytes, b: Bytes, d: Bytes, inp: Input)
    ensures var (s1, c1) := OnMessage(env, s, c, a, inp);
            var (s2, c2) := OnMessage(env, s1, c1, b, inp);
            Receive(env, s, c, [a, b, d], inp) == OnMessage(env, s2, c2, d, inp)
  {
    assert [a, b] + [d] == [a, b, d];
    ReceiveTwo(env, s, c, a, b, [d], inp);
    var (s1, c1) := OnMessage(env, s, c, a, inp);
    var (s2, c2) := OnMessage(env, s1, c1, b, inp);
    ReceiveOne(env, s2, c2, d, inp);
  }

  lemma ReceiveOne(env: Env, s: Store, c: Conn, a: Bytes, inp: Input)
    ensures Receive(env, s, c, [a], inp) == OnMessage(env, s, c, a, inp)
  {
    var (s1, c1) := OnMessage(env, s, c, a, inp);
    assert [a][1..] == [] && Receive(env, s1, c1, [], inp) == (s1, c1);
  }

  /** A client whose image is not accepted, or whose announcement of it is shorter
      than a hash, publishes nothing: no item and no game file changes. */
  lemma RejectedImage(env: Env, s: Store, u: Upload, announced: Bytes, image: Bytes, last: Bytes, inp: Input)
    requires LawfulText(env.text) && StoreOk(env, s) && Uploadable(env, s, u, inp) && !inp.imageAccepted
    ensures var msgs := [EncodeHeader(u.header, u.entries)] + (ChunkMessages(u.chunks) + [announced, image, last]);
            var (s1, c1) := Receive(env, s, NewConn(), msgs, inp);
            && c1.status == (if |announced| < 32 then Panic else Broken)
            && s1.software == s.software && s1.game == s.game
  {
    var s2, c2 := AllIn(env, s, u, [announced, image, last], inp);
    ImageMessages(env, s2, c2, c2.session.value, announced, image, last, inp);
  }

  /** What a message does to the image part of a connection, and when it publishes. */
  lemma ImageStep(env: Env, s: Store, c: Conn, msg: Bytes, inp: Input)
    ensures var c1 := OnMessage(env, s, c, msg, inp).1;
            && (c.imageHash.Some? ==> c1.imageHash == c.imageHash)
            && (c.imageHash.None? && c1.imageHash.Some? ==> |msg| >= 32 && c1.imageHash == Some(msg[..32]))
            && (!c.uploadedImage && c1.uploadedImage ==> inp.imageAccepted && c.imageHash.Some?)
            && (c.uploadedImage ==> c1.uploadedImage)
            && (c.status != Published && c1.status == Published ==> c.uploadedImage)
  {
  }

  /** A delivery announced the hash, and a later one brought an accepted image. */
  ghost predicate Announced(deliveries: seq<(Bytes, Input)>, hash: Digest) {
    exists i :: 0 <= i < |deliveries| && hash <= deliveries[i].0
  }

  ghost predicate Imaged(deliveries: seq<(Bytes, Input)>, hash: Digest) {
    exists i, j :: 0 <= i < j < |deliveries| && hash <= deliveries[i].0 && deliveries[j].1.imageAccepted
  }

  ghost predicate ImageOk(deliveries: seq<(Bytes, Input)>, c: Conn) {
    && (c.imageHash.Some? ==> Announced(deliveries, c.imageHash.value))
    && (c.uploadedImage ==> c.imageHash.Some? && Imaged(deliveries, c.imageHash.value))
    && (c.status == Published ==> c.uploadedImage)
  }

  lemma ImageMore(deliveries: seq<(Bytes, Input)>, c: Conn, env: Env, s: Store, msg: Bytes, inp: Input)
    requires ImageOk(deliveries, c)
    ensures ImageOk(deliveries + [(msg, inp)], OnMessage(env, s, c, msg, inp).1)
  {
    var all, c1 := deliveries + [(msg, inp)], OnMessage(env, s, c, msg, inp).1;
    var n := |deliveries|;
    ImageStep(env, s, c, msg, inp);
    assert all[n] == (msg, inp);
    if c1.imageHash.Some? {
      var hash := c1.imageHash.value;
      if c.imageHash.Some? {
        var i :| 0 <= i < n && hash <= deliveries[i].0;
        assert all[i] == deliveries[i];
        if c.uploadedImage {
          var k, j :| 0 <= k < j < n && hash <= deliveries[k].0 && deliveries[j].1.imageAccepted;
          assert all[k] == deliveries[k] && all[j] == deliveries[j];
        }
      }
    }
  }

  lemma {:induction false} ImageKept(env: Env, s: Store, c: Conn, done: seq<(Bytes, Input)>, todo: seq<(Bytes, Input)>)
    requires ImageOk(done, c)
    ensures ImageOk(done + todo, Deliver(env, s, c, todo).1)
    decreases |todo|
  {
    if todo == [] {
      assert done + todo == done;
    } else {
      var (msg, inp) := todo[0];
      var (s1, c1) := OnMessage(env, s, c, msg, inp);
      ImageMore(done, c, env, s, msg, inp);
      ImageKept(env, s1, c1, done + [todo[0]], todo[1..]);
      assert done + todo == done + [todo[0]] + todo[1..];
    }
  }

  /** On every run, a connection has published only if one of its messages announced
      an image hash and a later one brought an image that was accepted. */
  lemma PublishedHasImage(env: Env, s: Store, deliveries: seq<(Bytes, Input)>)
    requires Deliver(env, s, NewConn(), deliveries).1.status == Published
    ensures exists hash :: Imaged(deliveries, hash)
  {
    ImageKept(env, s, NewConn(), [], deliveries);
    assert [] + deliveries == deliveries;
    var hash := Deliver(env, s, NewConn(), deliveries).1.imageHash.value;
    assert Imaged(deliveries, hash);
  }

  // ---------- one payload message ----------

  /** The outcome of a payload message: it panics unless the buffer is empty and the
      message fits its 65,535 bytes; it closes the connection if the upload grows
      beyond the item's size; it waits if it is not a whole chunk; it panics and the
      cached file goes if a first chunk is of the wrong type; otherwise the file grows
      by the message. */
  lemma PayloadOutcome(env: Env, s: Store, c: Conn, session: Session, chunk: Chunk, msg: Bytes, inp: Input)
    requires ConnOk(s, c) && c.status == Running && c.session == Some(session) && c.chunk == Some(chunk)
    requires c.numChunks != session.header.numChunks
    ensures var (s1, c1) := OnMessage(env, s, c, msg, inp);
            var fits := c.buffered == 0 && |msg| <= 65_535;
            var small := c.payload + |msg| <= session.item.compressedSize;
            var whole := |msg| == chunk.len;
            var typed := chunk.file in c.seen || env.isZst(msg);
            && (!fits ==> c1.status == Panic && s1 == s)
            && (fits && !small ==> c1.status == Broken && s1 == s)
            && (fits && small && !whole ==>
                  c1.status == Running && s1 == s && c1.buffered == |msg| && c1.chunk == c.chunk)
            && (fits && small && whole && !typed ==>
                  c1.status == Panic && s1 == s.(cached := s.cached - {chunk.file}))
            && (fits && small && whole && typed ==>
                  && c1.status == Running && c1.numChunks == c.numChunks + 1
                  && c1.chunk.None? && c1.buffered == 0
                  && s1 == s.(cached := s.cached[chunk.file :=
                                (if chunk.file in s.cached then s.cached[chunk.file] else []) + msg]))
  {
    if c.buffered == 0 && |msg| <= 65_535 {
      WrapIdentity(c.totalSize + |msg|);
    }
  }

  /** So a chunk split over two messages panics at the second one. */
  lemma SplitChunkPanics(env: Env, s: Store, c: Conn, session: Session, chunk: Chunk, part: Bytes, rest: Bytes,
                         inp: Input)
    requires ConnOk(s, c) && c.status == Running && c.session == Some(session) && c.chunk == Some(chunk)
    requires c.numChunks != session.header.numChunks && c.buffered == 0
    requires 0 < |part| < chunk.len && |part| <= 65_535 && c.payload + |part| <= session.item.compressedSize
    ensures var (s1, c1) := Receive(env, s, c, [part, rest], inp);
            c1.status == Panic && s1 == s
  {
    PayloadOutcome(env, s, c, session, chunk, part, inp);
    var (s1, c1) := OnMessage(env, s, c, part, inp);
    assert [part, rest] + [] == [part, rest];
    ReceiveTwo(env, s, c, part, rest, [], inp);
    assert c1.session == c.session && c1.numChunks == c.numChunks;
    assert OnMessage(env, s1, c1, rest, inp) == OnPayload(env, s1, c1, session, chunk, rest);
  }

  // ---------- failing to move files ----------

  /** Moving stops at the first file that is missing or does not hash to its name:
      the files before it have moved, a corrupted one has left the cache, and no item
      changes. */
  lemma {:induction false} PromoteStops(env: Env, s: Store, good: seq<Digest>, bad: Digest, rest: seq<Digest>)
    requires forall i, j :: 0 <= i < j < |good| ==> good[i] != good[j]
    requires (forall h :: h in good ==> Promotable(env, s, h)) && bad !in good && !Promotable(env, s, bad)
    ensures var (s1, ok) := Promote(env, s, good + [bad] + rest);
            && !ok && s1.software == s.software && s1.uploadIds == s.uploadIds
            && s1.cached == (map h | h in s.cached && h !in good && h != bad :: s.cached[h])
            && s1.game.Keys == s.game.Keys + (set h | h in good)
            && (forall h :: h in good ==> h in s1.game && h in s.cached && s1.game[h] == s.cached[h])
            && (forall h :: h in s.game && h !in good ==> h in s1.game && s1.game[h] == s.game[h])
    decreases |good|
  {
    var order := good + [bad] + rest;
    if good == [] {
      assert order[0] == bad;
    } else {
      var h := good[0];
      assert order[0] == h && order[1..] == good[1..] + [bad] + rest;
      forall k | k in good[1..] ensures k != h && k in good {}
      assert Promotable(env, s, h);
      var s0 := PromoteOne(s, h);
      forall k | k in good[1..] ensures Promotable(env, s0, k) && s0.cached[k] == s.cached[k] {
        assert Promotable(env, s, k);
      }
      PromoteStops(env, s0, good[1..], bad, rest);
      assert forall k :: k in good <==> k == h || k in good[1..];
    }
  }
}
