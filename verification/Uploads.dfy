/** One upload connection: header, chunks, image, publication. The functions say
    what one websocket message does to the connection and to the shared trees
    and directories; `UploadHandler.dfy` holds the imperative handler. */
module Uploads {
  import opened Common
  import opened Frames

  /** blake3 and the `zst` file type test, both left uninterpreted. */
  datatype Env = Env(hash: Bytes -> Digest, isZst: Bytes -> bool, text: Text)

  const CHUNK_BUFFER_LEN: nat := 65535
  const MAX_COMPRESSED_SIZE: nat := 10_485_760

  datatype Item = Item(
    id: nat, title: Bytes, creator: Bytes, compressedSize: nat, files: map<Digest, Bytes>,
    creationTime: Option<nat>)

  /** The trees and directories an upload touches. `cached` is `.cached_files`,
      `game` is `.game_files`; both name a file by its hash. */
  datatype Store = Store(
    software: map<nat, Item>, uploadIds: map<Digest, nat>,
    cached: map<Digest, Bytes>, game: map<Digest, Bytes>)

  datatype Status = Running | Broken | Panic | Published

  datatype Session = Session(header: Header, item: Item)

  /** The locals of the handler. `payload` and `written` are history: the bytes
      received as chunk payload, and the chunks appended to cached files. */
  datatype Conn = Conn(
    status: Status, session: Option<Session>, totalSize: nat, numChunks: nat, buffered: nat,
    chunk: Option<Chunk>, imageHash: Option<Digest>, uploadedImage: bool, seen: set<Digest>,
    payload: nat, written: seq<(Digest, Bytes)>)

  /** What the handler learns from its surroundings while it treats a message:
      the cookie tree, the order in which the file table is iterated, whether the
      image was accepted, and the clock. */
  datatype Input = Input(
    cookieOk: (Bytes, Bytes) -> bool, order: seq<Digest>, imageAccepted: bool, now: nat)

  function NewConn(): Conn {
    Conn(Running, None, 0, 0, 0, None, None, false, {}, 0, [])
  }

  function Contents(files: map<Digest, Bytes>, d: Digest): Bytes {
    if d in files then files[d] else []
  }

  function TotalLen(written: seq<(Digest, Bytes)>): nat {
    if written == [] then 0 else TotalLen(written[..|written| - 1]) + |written[|written| - 1].1|
  }

  /** The chunks tagged with file `d`, in order, as one string. */
  function Tagged(written: seq<(Digest, Bytes)>, d: Digest): Bytes {
    if written == [] then []
    else
      var (tag, bytes) := written[|written| - 1];
      Tagged(written[..|written| - 1], d) + if tag == d then bytes else []
  }

  // ---------- one message ----------

  function OnMessage(env: Env, s: Store, c: Conn, msg: Bytes, inp: Input): (Store, Conn) {
    if c.status != Running then (s, c)
    else match c.session
      case None => (s, OnHeader(env, s, c, msg, inp))
      case Some(session) =>
        if c.numChunks == session.header.numChunks then
          if c.uploadedImage then OnFinish(env, s, c, session, inp) else (s, OnImage(c, msg, inp))
        else match c.chunk
          case None => (s, OnChunkHeader(c, msg))
          case Some(chunk) => OnPayload(env, s, c, session, chunk, msg)
  }

  function OnImage(c: Conn, msg: Bytes, inp: Input): Conn {
    if c.imageHash.Some? then
      if inp.imageAccepted then c.(uploadedImage := true) else c.(status := Broken)
    else
      if |msg| < 32 then c.(status := Panic) else c.(imageHash := Some(msg[..32]))
  }

  function OnHeader(env: Env, s: Store, c: Conn, msg: Bytes, inp: Input): Conn {
    match ParseHeader(env.text, Checks(inp.cookieOk, d => d in s.uploadIds), msg)
    case Broke => c.(status := Broken)
    case Panicked => c.(status := Panic)
    case Accepted(header) =>
      if header.uploadId in s.uploadIds && s.uploadIds[header.uploadId] in s.software
      then c.(session := Some(Session(header, s.software[s.uploadIds[header.uploadId]])))
      else c.(status := Panic)
  }

  function OnChunkHeader(c: Conn, msg: Bytes): Conn {
    match ParseChunk(msg)
    case Accepted(chunk) => c.(chunk := Some(chunk))
    case _ => c.(status := Panic)
  }

  function OnPayload(env: Env, s: Store, c: Conn, session: Session, chunk: Chunk, msg: Bytes): (Store, Conn) {
    var amt := c.buffered + |msg|;
    // The slice must fit the buffer and be as long as the message copied into it.
    if amt > CHUNK_BUFFER_LEN || amt != |msg| then (s, c.(status := Panic))
    else
      var c1 := c.(buffered := amt, totalSize := Wrap(c.totalSize + amt), payload := c.payload + |msg|);
      if c1.totalSize > session.item.compressedSize then (s, c1.(status := Broken))
      else if amt != chunk.len then (s, c1)
      else
        var c2 := c1.(written := c.written + [(chunk.file, msg)], seen := c.seen + {chunk.file});
        if chunk.file !in c.seen && !env.isZst(msg) then
          (s.(cached := s.cached - {chunk.file}), c2.(status := Panic))
        else
          (s.(cached := s.cached[chunk.file := Contents(s.cached, chunk.file) + msg]),
           c2.(buffered := 0, chunk := None, numChunks := c.numChunks + 1))
  }

  /** Check each cached file against its name and move it to the game files, in
      the given order; stop at the first that is missing or corrupted. */
  function Promote(env: Env, s: Store, order: seq<Digest>): (Store, bool)
    decreases |order|
  {
    if order == [] then (s, true)
    else
      var h := order[0];
      if h !in s.cached then (s, false)
      else if env.hash(s.cached[h]) != h then (s.(cached := s.cached - {h}), false)
      else Promote(env, PromoteOne(s, h), order[1..])
  }

  function PromoteOne(s: Store, h: Digest): Store
    requires h in s.cached
  {
    s.(game := s.game[h := s.cached[h]], cached := s.cached - {h})
  }

  function PublishItem(session: Session, now: nat): Item {
    session.item.(files := session.header.files, creationTime := Some(now))
  }

  function OnFinish(env: Env, s: Store, c: Conn, session: Session, inp: Input): (Store, Conn) {
    var (s1, ok) := Promote(env, s, inp.order);
    if !ok then (s1, c.(status := Panic))
    else
      var item := PublishItem(session, inp.now);
      (s1.(software := s1.software[item.id := item]), c.(status := Published))
  }

  // ---------- invariants ----------

  predicate Verified(env: Env, files: map<Digest, Bytes>) {
    forall h :: h in files ==> env.hash(files[h]) == h
  }

  predicate ItemOk(s: Store, item: Item) {
    && item.compressedSize <= MAX_COMPRESSED_SIZE
    && (forall h :: h in item.files ==> NoNul(item.files[h]))
    && if item.creationTime.Some? then item.files.Keys <= s.game.Keys else item.files == map[]
  }

  /** Every game file hashes to its name; every item sits under its own id and a
      published one has all its files; every upload id leads to an item. */
  predicate StoreOk(env: Env, s: Store) {
    && Verified(env, s.game)
    && (forall id :: id in s.software ==> s.software[id].id == id && ItemOk(s, s.software[id]))
    && (forall u :: u in s.uploadIds ==> s.uploadIds[u] in s.software)
  }

  predicate SessionOk(s: Store, session: Session) {
    && session.item.id in s.software
    && session.item.compressedSize <= MAX_COMPRESSED_SIZE
    && session.header.numChunks <= MAX_NUM_CHUNKS
    && (forall h :: h in session.header.files ==> NoNul(session.header.files[h]))
  }

  /** The byte and chunk accounting of a connection with a session. */
  predicate Accounts(c: Conn, session: Session) {
    && c.totalSize == c.payload
    && TotalLen(c.written) <= session.item.compressedSize
    && TotalLen(c.written) <= c.totalSize
    && (c.status == Running || c.status == Published ==> c.totalSize <= session.item.compressedSize)
    && (c.status != Panic ==> c.payload == TotalLen(c.written) + c.buffered && c.numChunks == |c.written|)
    && c.numChunks <= session.header.numChunks
    && c.buffered <= CHUNK_BUFFER_LEN
    && (c.status == Running && c.buffered > 0 ==> c.chunk.Some? && c.buffered != c.chunk.value.len)
    && (forall w :: w in c.written ==> |w.1| <= CHUNK_BUFFER_LEN)
  }

  predicate ConnOk(s: Store, c: Conn) {
    match c.session
    case None => c.totalSize == 0 == c.payload && c.written == [] && c.numChunks == 0 == c.buffered
                 && c.chunk.None? && c.status != Published
    case Some(session) => SessionOk(s, session) && Accounts(c, session)
  }

  /** An upload may change an item but neither adds one nor drops one. */
  predicate SameIds(s: Store, s': Store) {
    s'.software.Keys == s.software.Keys && s'.uploadIds == s.uploadIds
  }

  /** What never shrinks, whoever writes: ids, published items, game files. */
  predicate Grows(s: Store, s': Store) {
    && s.game.Keys <= s'.game.Keys
    && s.software.Keys <= s'.software.Keys
    && (forall id :: id in s.software && s.software[id].creationTime.Some? ==>
          s'.software[id].creationTime.Some?)
    && (forall u :: u in s.uploadIds ==> u in s'.uploadIds)
  }

  lemma {:induction false} PromoteKeeps(env: Env, s: Store, order: seq<Digest>)
    requires StoreOk(env, s)
    ensures var (s1, ok) := Promote(env, s, order);
            && StoreOk(env, s1) && Grows(s, s1)
            && s1.software == s.software && s1.uploadIds == s.uploadIds
            && (ok ==> forall h :: h in order ==> h in s1.game)
    decreases |order|
  {
    if order == [] {
    } else {
      var h := order[0];
      if h in s.cached && env.hash(s.cached[h]) == h {
        PromoteKeeps(env, PromoteOne(s, h), order[1..]);
        var (s1, ok) := Promote(env, s, order);
        if ok {
          forall k | k in order ensures k in s1.game {
            if k != h {
              assert k in order[1..];
            }
          }
        }
      }
    }
  }

  /** Only cached files change, so whatever concerns the other trees stands. */
  lemma CachedOnly(env: Env, s: Store, s': Store, session: Session)
    requires StoreOk(env, s) && SessionOk(s, session)
    requires s' == s.(cached := s'.cached)
    ensures StoreOk(env, s') && SessionOk(s', session) && Grows(s, s')
  {
  }

  lemma TotalLenAppend(written: seq<(Digest, Bytes)>, w: (Digest, Bytes))
    ensures TotalLen(written + [w]) == TotalLen(written) + |w.1|
    ensures forall d :: Tagged(written + [w], d) == Tagged(written, d) + if w.0 == d then w.1 else []
  {
    assert (written + [w])[..|written|] == written;
  }

  /** The accounts after one more chunk, taken or found to be of the wrong type. */
  lemma OneMoreChunk(c: Conn, session: Session, c': Conn, w: (Digest, Bytes))
    requires Accounts(c, session) && c.status == Running && c.buffered == 0
    requires c.numChunks < session.header.numChunks
    requires |w.1| <= CHUNK_BUFFER_LEN && c.totalSize + |w.1| <= session.item.compressedSize
    requires c'.written == c.written + [w]
    requires c'.totalSize == c.totalSize + |w.1| && c'.payload == c.payload + |w.1|
    requires (c'.status == Panic && c'.buffered == |w.1| && c'.numChunks == c.numChunks)
          || (c'.status == Running && c'.buffered == 0 && c'.numChunks == c.numChunks + 1)
    ensures Accounts(c', session)
  {
    TotalLenAppend(c.written, w);
  }

  /** A payload that completes its chunk. */
  lemma ChunkAccounts(env: Env, s: Store, c: Conn, session: Session, chunk: Chunk, msg: Bytes)
    requires Accounts(c, session) && c.status == Running && c.buffered == 0
    requires c.numChunks < session.header.numChunks && session.item.compressedSize < TWO_TO_THE_64
    requires |msg| == chunk.len <= CHUNK_BUFFER_LEN && c.totalSize + |msg| <= session.item.compressedSize
    ensures Accounts(OnPayload(env, s, c, session, chunk, msg).1, session)
  {
    WrapIdentity(c.totalSize + |msg|);
    OneMoreChunk(c, session, OnPayload(env, s, c, session, chunk, msg).1, (chunk.file, msg));
  }

  lemma PayloadAccounts(env: Env, s: Store, c: Conn, session: Session, chunk: Chunk, msg: Bytes)
    requires SessionOk(s, session) && Accounts(c, session) && c.status == Running
    requires c.chunk == Some(chunk) && c.numChunks < session.header.numChunks
    ensures Accounts(OnPayload(env, s, c, session, chunk, msg).1, session)
  {
    var amt := c.buffered + |msg|;
    if amt <= CHUNK_BUFFER_LEN && amt == |msg| {
      WrapIdentity(c.totalSize + amt);
      if c.totalSize + amt <= session.item.compressedSize && amt == chunk.len {
        ChunkAccounts(env, s, c, session, chunk, msg);
      }
    }
  }

  lemma PayloadKeeps(env: Env, s: Store, c: Conn, session: Session, chunk: Chunk, msg: Bytes)
    requires StoreOk(env, s) && ConnOk(s, c) && c.status == Running
    requires c.session == Some(session) && c.chunk == Some(chunk)
    requires c.numChunks < session.header.numChunks
    ensures var (s1, c1) := OnPayload(env, s, c, session, chunk, msg);
            StoreOk(env, s1) && ConnOk(s1, c1) && Grows(s, s1) && SameIds(s, s1)
  {
    PayloadAccounts(env, s, c, session, chunk, msg);
    CachedOnly(env, s, OnPayload(env, s, c, session, chunk, msg).0, session);
  }

  lemma FinishKeeps(env: Env, s: Store, c: Conn, session: Session, inp: Input)
    requires StoreOk(env, s) && ConnOk(s, c) && c.status == Running
    requires c.session == Some(session)
    requires forall h :: h in session.header.files ==> h in inp.order
    ensures var (s1, c1) := OnFinish(env, s, c, session, inp);
            StoreOk(env, s1) && ConnOk(s1, c1) && Grows(s, s1) && SameIds(s, s1)
  {
    PromoteKeeps(env, s, inp.order);
    var (s1, ok) := Promote(env, s, inp.order);
    if ok {
      var item := PublishItem(session, inp.now);
      var s2 := s1.(software := s1.software[item.id := item]);
      assert ItemOk(s2, item);
    }
  }

  lemma HeaderKeeps(env: Env, s: Store, c: Conn, msg: Bytes, inp: Input)
    requires LawfulText(env.text)
    requires StoreOk(env, s) && ConnOk(s, c)
    requires c.status == Running && c.session.None?
    ensures ConnOk(s, OnHeader(env, s, c, msg, inp))
  {
    var checks := Checks(inp.cookieOk, d => d in s.uploadIds);
    if ParseHeader(env.text, checks, msg).Accepted? {
      AcceptedHeader(env.text, checks, msg);
    }
  }

  /** Steps that touch neither the trees nor the accounts. */
  lemma QuietKeeps(s: Store, c: Conn, session: Session, msg: Bytes, inp: Input)
    requires SessionOk(s, session) && Accounts(c, session) && c.status == Running
    ensures c.chunk.None? ==> Accounts(OnChunkHeader(c, msg), session)
    ensures c.chunk.None? ==> OnChunkHeader(c, msg).session == c.session
    ensures Accounts(OnImage(c, msg, inp), session)
    ensures OnImage(c, msg, inp).session == c.session
  {
  }

  /** No message, whatever its bytes, breaks the invariants or undoes anything. */
  lemma MessageKeeps(env: Env, s: Store, c: Conn, msg: Bytes, inp: Input)
    requires LawfulText(env.text)
    requires StoreOk(env, s) && ConnOk(s, c)
    requires c.session.Some? ==> Enumerates(inp.order, c.session.value.header.files.Keys)
    ensures var (s1, c1) := OnMessage(env, s, c, msg, inp);
            StoreOk(env, s1) && ConnOk(s1, c1) && Grows(s, s1) && SameIds(s, s1)
  {
    if c.status == Running {
      match c.session
      case None =>
        HeaderKeeps(env, s, c, msg, inp);
      case Some(session) =>
        if c.numChunks == session.header.numChunks {
          if c.uploadedImage {
            FinishKeeps(env, s, c, session, inp);
          } else {
            QuietKeeps(s, c, session, msg, inp);
          }
        } else if c.chunk.Some? {
          PayloadKeeps(env, s, c, session, c.chunk.value, msg);
        } else {
          QuietKeeps(s, c, session, msg, inp);
        }
    }
  }

}
