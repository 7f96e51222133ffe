/** An upload that is tried again after the connection was lost: the chunks of the
    first try are still in the cache, in front of those of the second. */
module Retries {
  import opened Common
  import opened Frames
  import opened Uploads
  import opened UploadRuns
  import opened Catalogue

  // ---------- two tries over one store ----------

  /** The messages of a try that breaks off after `n` chunks. */
  function BrokenOff(u: Upload, n: nat): seq<Bytes>
    requires n <= |u.chunks|
  {
    [EncodeHeader(u.header, u.entries)] + ChunkMessages(u.chunks[..n])
  }

  /** The bytes of a file once `n` chunks and then all chunks have been appended. */
  function TwiceContent(s: Store, u: Upload, n: nat, h: Digest): Bytes
    requires n <= |u.chunks|
  {
    Contents(s.cached, h) + Tagged(u.chunks[..n], h) + Tagged(u.chunks, h)
  }

  lemma GoodPrefix(env: Env, chunks: seq<(Digest, Bytes)>, n: nat)
    requires GoodChunks(env, chunks) && n <= |chunks|
    ensures GoodChunks(env, chunks[..n])
  {
    forall i | 0 <= i < n
      ensures |chunks[..n][i].1| <= CHUNK_BUFFER_LEN
      ensures chunks[..n][i].0 !in Tags(chunks[..n][..i]) ==> env.isZst(chunks[..n][i].1)
    {
      assert chunks[..n][i] == chunks[i] && chunks[..n][..i] == chunks[..i];
    }
  }

  lemma CachedOnlyOk(env: Env, s: Store, s': Store)
    requires StoreOk(env, s) && s' == s.(cached := s'.cached)
    ensures StoreOk(env, s')
  {
  }

  lemma PrefixShorter(chunks: seq<(Digest, Bytes)>, n: nat)
    requires n <= |chunks|
    ensures TotalLen(chunks[..n]) <= TotalLen(chunks)
  {
    assert chunks[..n] + chunks[n..] == chunks;
    TotalLenPrefix(chunks[..n], chunks[n..]);
  }

  lemma EmptyFront<T>(s: seq<T>)
    ensures [] + s == s
  {
  }

  /** A header and chunks, once the header is taken. */
  lemma HeaderFirst(env: Env, s: Store, c: Conn, header: Bytes, more: seq<Bytes>, inp: Input)
    requires OnMessage(env, s, NewConn(), header, inp) == (s, c)
    ensures Receive(env, s, NewConn(), [header] + more, inp) == Receive(env, s, c, more, inp)
  {
    assert ([header] + more)[1..] == more;
  }

  /** A try that breaks off leaves its chunks behind. */
  lemma FirstTry(env: Env, s: Store, u: Upload, n: nat, inp: Input)
    requires LawfulText(env.text) && StoreOk(env, s) && WellFormed(env, s, u, inp) && n <= |u.chunks|
    ensures var (s1, c1) := Receive(env, s, NewConn(), BrokenOff(u, n), inp);
            && c1.status == Running && s1 == s.(cached := s1.cached)
            && Holds(s.cached, s1.cached, u.chunks[..n])
  {
    var c := HeaderTaken(env, s, u, inp);
    GoodPrefix(env, u.chunks, n);
    PrefixShorter(u.chunks, n);
    EmptyFront(u.chunks[..n]);
    HeaderFirst(env, s, c, EncodeHeader(u.header, u.entries), ChunkMessages(u.chunks[..n]), inp);
    AllChunks(env, s, s, c, c.session.value, [], u.chunks[..n], inp);
  }

  lemma TagsOfPrefix(chunks: seq<(Digest, Bytes)>, n: nat)
    requires n <= |chunks|
    ensures Tags(chunks[..n]) <= Tags(chunks)
  {
  }

  /** A client that tries again from the start publishes exactly when each listed
      file hashes to its name with the chunks of the first try in front. */
  lemma RetryPublishes(env: Env, s: Store, u: Upload, n: nat, imageHash: Digest, image: Bytes, last: Bytes, inp: Input)
    requires LawfulText(env.text) && StoreOk(env, s) && WellFormed(env, s, u, inp) && n <= |u.chunks|
    ensures var s1 := Receive(env, s, NewConn(), BrokenOff(u, n), inp).0;
            var c2 := Receive(env, s1, NewConn(), ClientMessages(u, imageHash, image, last), inp).1;
            && (c2.status == Published || c2.status == Panic) && c2.uploadedImage
            && (c2.status == Published <==>
                  forall h :: h in u.header.files ==>
                    (h in s.cached || h in Tags(u.chunks)) && env.hash(TwiceContent(s, u, n, h)) == h)
  {
    FirstTry(env, s, u, n, inp);
    var s1 := Receive(env, s, NewConn(), BrokenOff(u, n), inp).0;
    CachedOnlyOk(env, s, s1);
    assert WellFormed(env, s1, u, inp);
    UploadPublishes(env, s1, u, imageHash, image, last, inp);
    TagsOfPrefix(u.chunks, n);
    forall h | h in u.header.files
      ensures FileReady(env, s1, u, h)
         <==> (h in s.cached || h in Tags(u.chunks)) && env.hash(TwiceContent(s, u, n, h)) == h
    {
      assert Contents(s1.cached, h) == Contents(s.cached, h) + Tagged(u.chunks[..n], h);
    }
  }

  // ---------- a run of the catalogue ----------

  /** The store once one item has been created. */
  ghost function CreatedStore(env: Env, title: Bytes, creator: Bytes, size: nat, uploadId: Digest): (s: Store)
    requires size <= MAX_COMPRESSED_SIZE
    ensures StoreOk(env, s)
  {
    var item := NewItem(0, title, creator, size);
    var s := Store(map[0 := item], map[uploadId := 0], map[], map[]);
    assert ItemOk(s, item);
    s
  }

  lemma Claiming(env: Env, item: Item, uploadId: Digest) returns (events: seq<Event>)
    requires item == NewItem(0, item.title, item.creator, item.compressedSize)
    requires item.compressedSize <= MAX_COMPRESSED_SIZE
    ensures Run(env, events)
         == Site(Store(map[0 := item], map[], map[], map[]), 1, map[0 := Inserted(0, uploadId)], map[])
  {
    var e := Claim(0, item.title, item.creator, item.compressedSize, uploadId);
    RunMore(env, [], e);
    assert [] + [e] == [e];
    assert Run(env, [e]) == NewSite().(nextId := 1, creating := map[0 := Claimed(item, uploadId)]);
    RunMore(env, [e], InsertItem(0));
    events := [e] + [InsertItem(0)];
    var s := Run(env, events);
    assert s.store.software == map[0 := item] && s.creating == map[0 := Inserted(0, uploadId)];
  }

  lemma Creation(env: Env, title: Bytes, creator: Bytes, size: nat, uploadId: Digest) returns (events: seq<Event>)
    requires size <= MAX_COMPRESSED_SIZE
    ensures Run(env, events) == Site(CreatedStore(env, title, creator, size, uploadId), 1, map[], map[])
  {
    var claimed := Claiming(env, NewItem(0, title, creator, size), uploadId);
    RunMore(env, claimed, InsertUploadId(0));
    events := claimed + [InsertUploadId(0)];
    assert Run(env, events).store.uploadIds == map[uploadId := 0] && Run(env, events).creating == map[];
  }

  function Sends(k: nat, msgs: seq<Bytes>, inp: Input): seq<Event> {
    if msgs == [] then [] else [Message(k, msgs[0], inp)] + Sends(k, msgs[1..], inp)
  }

  lemma SessionStays(env: Env, s: Store, c: Conn, msg: Bytes, inp: Input)
    requires c.session.Some?
    ensures OnMessage(env, s, c, msg, inp).1.session == c.session
  {
  }

  /** The site once connection `k` has got to `c` over `store`. */
  function Reached(s: Site, k: nat, r: (Store, Conn)): Site {
    s.(store := r.0, conns := s.conns[k := r.1])
  }

  lemma ReachedTwice(s: Site, k: nat, c: Conn, r: (Store, Conn))
    ensures Reached(s.(conns := s.conns[k := c]), k, r) == Reached(s, k, r)
  {
    assert s.conns[k := c][k := r.1] == s.conns[k := r.1];
  }

  /** Messages to one connection, with nothing in between, are its own run. */
  lemma {:induction false} RunSends(env: Env, before: seq<Event>, k: nat, msgs: seq<Bytes>, inp: Input)
    requires k in Run(env, before).conns
    requires var c := Run(env, before).conns[k];
             c.session.Some? && Enumerates(inp.order, c.session.value.header.files.Keys)
    ensures var s := Run(env, before);
            Run(env, before + Sends(k, msgs, inp)) == Reached(s, k, Receive(env, s.store, s.conns[k], msgs, inp))
    decreases |msgs|
  {
    var s := Run(env, before);
    if msgs == [] {
      assert before + Sends(k, msgs, inp) == before;
      assert s.conns[k := s.conns[k]] == s.conns;
    } else {
      var e, rest := Message(k, msgs[0], inp), Sends(k, msgs[1..], inp);
      var (store, c) := OnMessage(env, s.store, s.conns[k], msgs[0], inp);
      RunMore(env, before, e);
      SessionStays(env, s.store, s.conns[k], msgs[0], inp);
      RunSends(env, before + [e], k, msgs[1..], inp);
      assert before + Sends(k, msgs, inp) == before + [e] + rest;
      ReachedTwice(s.(store := store), k, c, Receive(env, store, c, msgs[1..], inp));
    }
  }

  /** A new connection sends a header that is accepted. */
  lemma Opened(env: Env, before: seq<Event>, k: nat, header: Bytes, c: Conn, inp: Input) returns (events: seq<Event>)
    requires k !in Run(env, before).conns
    requires OnMessage(env, Run(env, before).store, NewConn(), header, inp) == (Run(env, before).store, c)
    ensures Run(env, events) == Run(env, before).(conns := Run(env, before).conns[k := c])
  {
    var s := Run(env, before);
    RunMore(env, before, Connect(k));
    var connected := before + [Connect(k)];
    RunMore(env, connected, Message(k, header, inp));
    events := connected + [Message(k, header, inp)];
    assert s.conns[k := NewConn()][k := c] == s.conns[k := c];
  }

  /** And more messages. */
  lemma Session(env: Env, before: seq<Event>, k: nat, header: Bytes, c: Conn, more: seq<Bytes>, inp: Input)
    returns (events: seq<Event>)
    requires k !in Run(env, before).conns
    requires OnMessage(env, Run(env, before).store, NewConn(), header, inp) == (Run(env, before).store, c)
    requires c.session.Some? && Enumerates(inp.order, c.session.value.header.files.Keys)
    ensures var s := Run(env, before);
            Run(env, events) == Reached(s, k, Receive(env, s.store, NewConn(), [header] + more, inp))
  {
    var s := Run(env, before);
    var begun := Opened(env, before, k, header, c, inp);
    RunSends(env, begun, k, more, inp);
    HeaderFirst(env, s.store, c, header, more, inp);
    events := begun + Sends(k, more, inp);
    ReachedTwice(s, k, c, Receive(env, s.store, c, more, inp));
  }

  /** The first try of a client in a new catalogue, disconnected after `n` chunks. */
  lemma LostConnection(env: Env, title: Bytes, creator: Bytes, size: nat, u: Upload, n: nat, inp: Input)
    returns (events: seq<Event>)
    requires LawfulText(env.text) && size <= MAX_COMPRESSED_SIZE && n <= |u.chunks|
    requires WellFormed(env, CreatedStore(env, title, creator, size, u.header.uploadId), u, inp)
    ensures var s := CreatedStore(env, title, creator, size, u.header.uploadId);
            Run(env, events) == Site(Receive(env, s, NewConn(), BrokenOff(u, n), inp).0, 1, map[], map[])
  {
    var created := Creation(env, title, creator, size, u.header.uploadId);
    var c := HeaderTaken(env, Run(env, created).store, u, inp);
    var header := EncodeHeader(u.header, u.entries);
    var lost := Session(env, created, 1, header, c, ChunkMessages(u.chunks[..n]), inp);
    RunMore(env, lost, Disconnect(1));
    events := lost + [Disconnect(1)];
    assert Run(env, events).conns == map[];
  }

  /** The second try, when a file does not hash with the leftovers in front. */
  lemma SecondTryPanics(env: Env, s: Store, u: Upload, n: nat, imageHash: Digest, image: Bytes, last: Bytes,
                        inp: Input, bad: Digest)
    requires LawfulText(env.text) && StoreOk(env, s) && WellFormed(env, s, u, inp) && n <= |u.chunks|
    requires s.cached == map[] && bad in u.header.files
    requires env.hash(Tagged(u.chunks[..n], bad) + Tagged(u.chunks, bad)) != bad
    ensures var s1 := Receive(env, s, NewConn(), BrokenOff(u, n), inp).0;
            var c2 := Receive(env, s1, NewConn(), ClientMessages(u, imageHash, image, last), inp).1;
            StoreOk(env, s1) && WellFormed(env, s1, u, inp) && c2.status == Panic && c2.uploadedImage
  {
    FirstTry(env, s, u, n, inp);
    CachedOnlyOk(env, s, Receive(env, s, NewConn(), BrokenOff(u, n), inp).0);
    RetryPublishes(env, s, u, n, imageHash, image, last, inp);
    assert [] + Tagged(u.chunks[..n], bad) == Tagged(u.chunks[..n], bad);
    assert env.hash(TwiceContent(s, u, n, bad)) != bad;
  }

  lemma WholePublishes(env: Env, s: Store, u: Upload, imageHash: Digest, image: Bytes, last: Bytes, inp: Input)
    requires LawfulText(env.text) && StoreOk(env, s) && WellFormed(env, s, u, inp) && s.cached == map[]
    requires forall h :: h in u.header.files ==> h in Tags(u.chunks) && env.hash(Tagged(u.chunks, h)) == h
    ensures Receive(env, s, NewConn(), ClientMessages(u, imageHash, image, last), inp).1.status == Published
  {
    UploadPublishes(env, s, u, imageHash, image, last, inp);
    forall h | h in u.header.files ensures FileReady(env, s, u, h) {
      assert [] + Tagged(u.chunks, h) == Tagged(u.chunks, h);
    }
  }

  /** A retry may fail though every chunk is right: in some run of the catalogue a
      client loses its connection after `n` chunks, sends everything again, and the
      second try panics at the end, because some file, the leftovers in front, does
      not hash to its name. Sent into the empty cache, the same messages publish. */
  lemma LeftoversBlockRetry(env: Env, title: Bytes, creator: Bytes, size: nat, u: Upload, n: nat,
                            imageHash: Digest, image: Bytes, last: Bytes, inp: Input, bad: Digest)
    requires LawfulText(env.text) && size <= MAX_COMPRESSED_SIZE && n <= |u.chunks|
    requires WellFormed(env, CreatedStore(env, title, creator, size, u.header.uploadId), u, inp)
    requires forall h :: h in u.header.files ==> h in Tags(u.chunks) && env.hash(Tagged(u.chunks, h)) == h
    requires bad in u.header.files && env.hash(Tagged(u.chunks[..n], bad) + Tagged(u.chunks, bad)) != bad
    ensures exists events ::
              var s := Run(env, events);
              2 in s.conns && s.conns[2].status == Panic && s.conns[2].uploadedImage
    ensures var s0 := CreatedStore(env, title, creator, size, u.header.uploadId);
            Receive(env, s0, NewConn(), ClientMessages(u, imageHash, image, last), inp).1.status == Published
  {
    WholePublishes(env, CreatedStore(env, title, creator, size, u.header.uploadId), u, imageHash, image, last, inp);
    var lost := LostConnection(env, title, creator, size, u, n, inp);
    SecondTryPanics(env, CreatedStore(env, title, creator, size, u.header.uploadId), u, n, imageHash, image, last,
                    inp, bad);
    var more := ChunkMessages(u.chunks) + [imageHash, image, last];
    var c := HeaderTaken(env, Run(env, lost).store, u, inp);
    var events := Session(env, lost, 2, EncodeHeader(u.header, u.entries), c, more, inp);
    assert [EncodeHeader(u.header, u.entries)] + more == ClientMessages(u, imageHash, image, last);
  }
}
