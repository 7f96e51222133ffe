/** The upload handler as the source runs it: a connection object with its chunk
    buffer, changing shared trees one websocket message at a time. Its methods
    are proved to do what `Uploads` says. */
module UploadHandler {
  import opened Common
  import opened Frames
  import opened Uploads

  /** The sled trees and directories shared by all connections. */
  class SharedStore {
    var software: map<nat, Item>
    var uploadIds: map<Digest, nat>
    var cached: map<Digest, Bytes>
    var game: map<Digest, Bytes>

    function View(): Store
      reads this
    {
      Store(software, uploadIds, cached, game)
    }
  }

  lemma {:induction false} Enumeration<T(!new)>(keys: set<T>) returns (order: seq<T>)
    ensures Enumerates(order, keys)
    decreases keys
  {
    if keys == {} {
      order := [];
    } else {
      var k :| k in keys;
      var rest := Enumeration(keys - {k});
      order := [k] + rest;
    }
  }

  lemma EnumerationOf<T(!new)>(done: seq<T>, left: set<T>, keys: set<T>) returns (order: seq<T>)
    requires Enumerates(done, keys - left) && left <= keys
    ensures Enumerates(order, keys) && done <= order
    ensures Enumerates(order[|done|..], left)
  {
    var rest := Enumeration(left);
    order := done + rest;
    assert order[|done|..] == rest;
    forall i, j | 0 <= i < j < |order| ensures order[i] != order[j] {
      if i < |done| <= j {
        assert done[i] in keys - left && rest[j - |done|] in left;
      }
    }
    forall k ensures k in keys <==> k in order {}
  }

  /** Once the files `done` have moved, the rest decide the outcome. */
  ghost predicate Moved(env: Env, s0: Store, done: seq<Digest>, s: Store) {
    forall rest :: Promote(env, s0, done + rest) == Promote(env, s, rest)
  }

  lemma MovedOneMore(env: Env, s0: Store, done: seq<Digest>, s: Store, h: Digest)
    requires Moved(env, s0, done, s) && h in s.cached && env.hash(s.cached[h]) == h
    ensures Moved(env, s0, done + [h], PromoteOne(s, h))
  {
    forall rest ensures Promote(env, s0, done + [h] + rest) == Promote(env, PromoteOne(s, h), rest) {
      Assoc(done, [h], rest);
      assert ([h] + rest)[1..] == rest;
    }
  }

  lemma MovedNothing(env: Env, s: Store)
    ensures Moved(env, s, [], s)
  {
    forall rest: seq<Digest> ensures [] + rest == rest {}
  }

  /** The outcome is settled at the first file that is missing or corrupted. */
  lemma StopsAt(env: Env, s0: Store, done: seq<Digest>, s: Store, h: Digest, left: set<Digest>, files: set<Digest>)
    returns (order: seq<Digest>)
    requires Moved(env, s0, done, s) && Enumerates(done, files - left)
    requires h in left && left <= files
    requires h !in s.cached || env.hash(s.cached[h]) != h
    ensures Enumerates(order, files)
    ensures Promote(env, s0, order) == (if h in s.cached then s.(cached := s.cached - {h}) else s, false)
  {
    order := EnumerationOf(done + [h], left - {h}, files);
    var rest := order[|done|..];
    assert order == done + rest && rest[0] == h;
  }

  class Connection {
    var status: Status
    var session: Option<Session>
    var totalSize: u64
    var numChunks: nat
    var buffered: nat
    var chunk: Option<Chunk>
    var imageHash: Option<Digest>
    var uploadedImage: bool
    var seen: set<Digest>
    var chunkBuffer: array<byte>
    ghost var payload: nat
    ghost var written: seq<(Digest, Bytes)>

    ghost function View(): Conn
      reads this
    {
      Conn(status, session, totalSize, numChunks, buffered, chunk, imageHash, uploadedImage, seen, payload, written)
    }

    ghost predicate Valid()
      reads this
    {
      chunkBuffer.Length == CHUNK_BUFFER_LEN
    }

    constructor ()
      ensures Valid() && fresh(chunkBuffer) && View() == NewConn()
    {
      status, session, totalSize, numChunks, buffered := Running, None, 0, 0, 0;
      chunk, imageHash, uploadedImage, seen := None, None, false, {};
      chunkBuffer := new byte[CHUNK_BUFFER_LEN];
      payload, written := 0, [];
    }

    /** One turn of the connection loop. `inp` records the order in which the
        file table was visited, with the other circumstances of the turn. */
    method Receive(env: Env, store: SharedStore, msg: Bytes,
                   cookieOk: (Bytes, Bytes) -> bool, imageAccepted: bool, now: nat)
      returns (ghost inp: Input)
      requires Valid()
      modifies this, chunkBuffer, store
      ensures Valid() && chunkBuffer == old(chunkBuffer)
      ensures inp.cookieOk == cookieOk && inp.imageAccepted == imageAccepted && inp.now == now
      ensures old(session).Some? ==> Enumerates(inp.order, old(session).value.header.files.Keys)
      ensures (store.View(), View()) == OnMessage(env, old(store.View()), old(View()), msg, inp)
    {
      ghost var order: seq<Digest> := [];
      if session.Some? {
        order := Enumeration(session.value.header.files.Keys);
      }
      if status == Running {
        if session.None? {
          ReceiveHeader(env, store, msg, cookieOk);
        } else if numChunks == session.value.header.numChunks {
          if uploadedImage {
            order := Finish(env, store, now);
          } else {
            ReceiveImage(msg, imageAccepted);
          }
        } else if chunk.None? {
          var parsed := ParseChunk(msg);
          if parsed.Accepted? {
            chunk := Some(parsed.value);
          } else {
            status := Panic;
          }
        } else {
          ReceivePayload(env, store, msg);
        }
      }
      inp := Input(cookieOk, order, imageAccepted, now);
    }

    method ReceiveHeader(env: Env, store: SharedStore, msg: Bytes, cookieOk: (Bytes, Bytes) -> bool)
      requires Valid() && status == Running && session.None?
      modifies this
      ensures Valid() && chunkBuffer == old(chunkBuffer)
      ensures forall inp: Input :: inp.cookieOk == cookieOk ==>
                View() == OnHeader(env, store.View(), old(View()), msg, inp)
    {
      var uploadIds := store.uploadIds;
      match ParseHeader(env.text, Checks(cookieOk, d => d in uploadIds), msg) {
        case Broke => status := Broken;
        case Panicked => status := Panic;
        case Accepted(header) =>
          if header.uploadId in store.uploadIds && store.uploadIds[header.uploadId] in store.software {
            session := Some(Session(header, store.software[store.uploadIds[header.uploadId]]));
          } else {
            status := Panic;
          }
      }
    }

    /** First the hash of the title image, then the image itself. */
    method ReceiveImage(msg: Bytes, imageAccepted: bool)
      requires Valid() && status == Running
      modifies this
      ensures Valid() && chunkBuffer == old(chunkBuffer)
      ensures forall inp: Input :: inp.imageAccepted == imageAccepted ==> View() == OnImage(old(View()), msg, inp)
    {
      if imageHash.Some? {
        if imageAccepted {
          uploadedImage := true;
        } else {
          status := Broken;
        }
      } else if |msg| < 32 {
        status := Panic;
      } else {
        imageHash := Some(msg[..32]);
      }
    }

    method ReceivePayload(env: Env, store: SharedStore, msg: Bytes)
      requires Valid() && status == Running && session.Some? && chunk.Some?
      modifies this, chunkBuffer, store
      ensures Valid() && chunkBuffer == old(chunkBuffer)
      ensures (store.View(), View())
           == OnPayload(env, old(store.View()), old(View()), old(session).value, old(chunk).value, msg)
    {
      if chunkBuffer.Length < buffered + |msg| || buffered + |msg| != |msg| {
        status := Panic;
        return;
      }
      CopyIn(msg);
      buffered := buffered + |msg|;
      totalSize := Wrap(totalSize + buffered);
      payload := payload + |msg|;
      if totalSize > session.value.item.compressedSize {
        status := Broken;
        return;
      }
      if buffered == chunk.value.len {
        WriteChunk(env, store, chunk.value.file, chunkBuffer[..buffered]);
      }
    }

    method CopyIn(msg: Bytes)
      requires |msg| <= chunkBuffer.Length
      modifies chunkBuffer
      ensures chunkBuffer[..|msg|] == msg
    {
      forall i | 0 <= i < |msg| {
        chunkBuffer[i] := msg[i];
      }
    }

    /** Append the full buffer to its cached file; undo it if the first chunk of
        a file is of the wrong type. */
    method WriteChunk(env: Env, store: SharedStore, file: Digest, bytes: Bytes)
      requires Valid()
      modifies this, store
      ensures Valid() && chunkBuffer == old(chunkBuffer)
      ensures (store.View(), View())
           == if file !in old(seen) && !env.isZst(bytes) then
                (old(store.View()).(cached := old(store.cached) - {file}),
                 old(View()).(written := old(written) + [(file, bytes)], seen := old(seen) + {file}, status := Panic))
              else
                (old(store.View()).(cached := old(store.cached)[file := Contents(old(store.cached), file) + bytes]),
                 old(View()).(written := old(written) + [(file, bytes)], seen := old(seen) + {file},
                              buffered := 0, chunk := None, numChunks := old(numChunks) + 1))
    {
      store.cached := store.cached[file := Contents(store.cached, file) + bytes];
      written := written + [(file, bytes)];
      var isFirstChunk := file !in seen;
      seen := seen + {file};
      if isFirstChunk && !env.isZst(bytes) {
        store.cached := store.cached - {file};
        assert store.cached == old(store.cached) - {file};
        status := Panic;
        return;
      }
      buffered := 0;
      chunk := None;
      numChunks := numChunks + 1;
    }

    /** Check and move every listed file, then publish the item. */
    method Finish(env: Env, store: SharedStore, now: nat) returns (ghost order: seq<Digest>)
      requires Valid() && status == Running && session.Some?
      modifies this, store
      ensures Valid() && chunkBuffer == old(chunkBuffer)
      ensures Enumerates(order, old(session).value.header.files.Keys)
      ensures forall inp: Input :: inp.order == order && inp.now == now ==>
                (store.View(), View())
                == OnFinish(env, old(store.View()), old(View()), old(session).value, inp)
    {
      var moved;
      moved, order := MoveFiles(env, store, session.value.header.files.Keys);
      if !moved {
        status := Panic;
        return;
      }
      var item := PublishItem(session.value, now);
      store.software := store.software[item.id := item];
      status := Published;
    }

    method MoveFiles(env: Env, store: SharedStore, files: set<Digest>) returns (moved: bool, ghost order: seq<Digest>)
      modifies store
      ensures Enumerates(order, files)
      ensures (store.View(), moved) == Promote(env, old(store.View()), order)
    {
      var left := files;
      ghost var done: seq<Digest> := [];
      MovedNothing(env, store.View());
      while left != {}
        invariant left <= files && Enumerates(done, files - left)
        invariant Moved(env, old(store.View()), done, store.View())
        decreases left
      {
        var h :| h in left;
        if h !in store.cached {
          order := StopsAt(env, old(store.View()), done, store.View(), h, left, files);
          return false, order;
        }
        if env.hash(store.cached[h]) != h {
          order := StopsAt(env, old(store.View()), done, store.View(), h, left, files);
          store.cached := store.cached - {h};
          return false, order;
        }
        MovedOneMore(env, old(store.View()), done, store.View(), h);
        store.game := store.game[h := store.cached[h]];
        store.cached := store.cached - {h};
        done := done + [h];
        left := left - {h};
      }
      order := done;
      assert done + [] == done;
      moved := true;
    }
  }
}
