/** The cached files under any number of connections: each is the chunks that the
    connections appended to it, interleaved in the order of their arrival. */
module CacheLog {
  import opened Common
  import opened Frames
  import opened Uploads
  import opened Catalogue

  /** A chunk with the connection that appended it. */
  datatype Entry = Entry(conn: nat, bytes: Bytes)

  function Joined(log: seq<Entry>): Bytes {
    if log == [] then [] else Joined(log[..|log| - 1]) + log[|log| - 1].bytes
  }

  /** What connection `k` appended, in order. */
  function PartOf(log: seq<Entry>, k: nat): Bytes {
    if log == [] then []
    else PartOf(log[..|log| - 1], k) + if log[|log| - 1].conn == k then log[|log| - 1].bytes else []
  }

  /** The chunk for file `d` by which the history of a connection has grown. */
  function NewChunk(c: Conn, c': Conn, d: Digest): Option<Bytes> {
    if |c'.written| > |c.written| && c'.written[|c'.written| - 1].0 == d
    then Some(c'.written[|c'.written| - 1].1) else None
  }

  /** What the event appends to file `d`. */
  ghost function Appended(s: Site, s': Site, e: Event, d: Digest): seq<Entry> {
    if e.Message? && e.conn in s.conns && e.conn in s'.conns then
      match NewChunk(s.conns[e.conn], s'.conns[e.conn], d)
      case Some(bytes) => [Entry(e.conn, bytes)]
      case None => []
    else []
  }

  /** The chunks appended to file `d` since it was last absent from the cache. */
  ghost function Log(env: Env, events: seq<Event>, d: Digest): seq<Entry> {
    if events == [] || d !in Run(env, events).store.cached then []
    else
      var before, e := events[..|events| - 1], events[|events| - 1];
      Log(env, before, d) + Appended(Run(env, before), Run(env, events), e, d)
  }

  // ---------- one message ----------

  lemma {:induction false} PromoteOnlyRemoves(env: Env, s: Store, order: seq<Digest>, d: Digest)
    ensures d in Promote(env, s, order).0.cached ==>
              d in s.cached && Promote(env, s, order).0.cached[d] == s.cached[d]
    decreases |order|
  {
    if order != [] && order[0] in s.cached && env.hash(s.cached[order[0]]) == order[0] {
      PromoteOnlyRemoves(env, PromoteOne(s, order[0]), order[1..], d);
    }
  }

  /** File `d` grew by `bytes`, if it is still there. */
  ghost predicate Grew(s: Store, s': Store, d: Digest, bytes: Bytes) {
    d in s'.cached ==> Contents(s'.cached, d) == Contents(s.cached, d) + bytes
  }

  function BytesOf(chunk: Option<Bytes>): Bytes {
    if chunk.Some? then chunk.value else []
  }

  lemma PayloadGrows(env: Env, s: Store, c: Conn, session: Session, chunk: Chunk, msg: Bytes, d: Digest)
    ensures var (s', c') := OnPayload(env, s, c, session, chunk, msg);
            Grew(s, s', d, BytesOf(NewChunk(c, c', d)))
  {
    var (s', c') := OnPayload(env, s, c, session, chunk, msg);
    if c'.written != c.written {
      assert c'.written == c.written + [(chunk.file, msg)];
    }
  }

  /** A message appends to a file exactly the chunk it adds to the connection's
      history, or removes the file. */
  lemma MessageGrows(env: Env, s: Store, c: Conn, msg: Bytes, inp: Input, d: Digest)
    ensures var (s', c') := OnMessage(env, s, c, msg, inp);
            Grew(s, s', d, BytesOf(NewChunk(c, c', d)))
  {
    if c.status == Running && c.session.Some? {
      var session := c.session.value;
      if c.numChunks != session.header.numChunks {
        if c.chunk.Some? {
          PayloadGrows(env, s, c, session, c.chunk.value, msg, d);
        }
      } else if c.uploadedImage {
        PromoteOnlyRemoves(env, s, inp.order, d);
      }
    }
  }

  lemma JoinedMore(log: seq<Entry>, more: seq<Entry>)
    requires |more| <= 1
    ensures Joined(log + more) == Joined(log) + if more == [] then [] else more[0].bytes
  {
    if more == [] {
      assert log + more == log;
    } else {
      assert (log + more)[..|log|] == log;
    }
  }

  lemma StepGrows(env: Env, s: Site, e: Event, d: Digest)
    ensures var s' := Step(env, s, e);
            var more := Appended(s, s', e, d);
            |more| <= 1 && Grew(s.store, s'.store, d, if more == [] then [] else more[0].bytes)
  {
    if e.Message? && e.conn in s.conns && Timely(s.conns[e.conn], e.inp) {
      MessageGrows(env, s.store, s.conns[e.conn], e.msg, e.inp, d);
    }
  }

  /** In every reachable state of any number of connections a cached file is
      exactly the chunks appended to it since it was last absent, in order. */
  lemma {:induction false} CachedFilesInterleave(env: Env, events: seq<Event>, d: Digest)
    ensures Contents(Run(env, events).store.cached, d) == Joined(Log(env, events, d))
  {
    if events != [] && d in Run(env, events).store.cached {
      var before, e := events[..|events| - 1], events[|events| - 1];
      CachedFilesInterleave(env, before, d);
      StepGrows(env, Run(env, before), e, d);
      JoinedMore(Log(env, before, d), Appended(Run(env, before), Run(env, events), e, d));
    }
  }

  // ---------- one connection's share ----------

  /** After `before`, connection `k` connects, and through `after` it stays and
      does not panic, and file `d` is not removed. */
  ghost predicate Undisturbed(env: Env, before: seq<Event>, k: nat, after: seq<Event>, d: Digest) {
    if after == [] then k !in Run(env, before).conns
    else
      var earlier := after[..|after| - 1];
      var s, s' := Run(env, before + [Connect(k)] + earlier), Run(env, before + [Connect(k)] + after);
      && Undisturbed(env, before, k, earlier, d)
      && !after[|after| - 1].Restart? && after[|after| - 1] != Disconnect(k)
      && k in s'.conns && s'.conns[k].status != Panic
      && (d in s.store.cached ==> d in s'.store.cached)
  }

  lemma RunSnoc(env: Env, before: seq<Event>, k: nat, after: seq<Event>)
    requires after != []
    ensures var earlier := after[..|after| - 1];
            var events := before + [Connect(k)] + after;
            && events != [] && events[..|events| - 1] == before + [Connect(k)] + earlier
            && events[|events| - 1] == after[|after| - 1]
            && Run(env, events) == Step(env, Run(env, before + [Connect(k)] + earlier), after[|after| - 1])
  {
    var events := before + [Connect(k)] + after;
    assert events[..|events| - 1] == before + [Connect(k)] + after[..|after| - 1];
  }

  lemma PartMore(log: seq<Entry>, more: seq<Entry>, k: nat)
    requires |more| <= 1
    ensures PartOf(log + more, k)
         == PartOf(log, k) + if more != [] && more[0].conn == k then more[0].bytes else []
  {
    if more == [] {
      assert log + more == log;
    } else {
      assert (log + more)[..|log|] == log;
    }
  }

  lemma PayloadHistory(env: Env, s: Store, c: Conn, session: Session, chunk: Chunk, msg: Bytes, d: Digest)
    ensures var (s', c') := OnPayload(env, s, c, session, chunk, msg);
            && Tagged(c'.written, d) == Tagged(c.written, d) + BytesOf(NewChunk(c, c', d))
            && (NewChunk(c, c', d).Some? && c'.status != Panic ==> d in s'.cached)
  {
    var (s', c') := OnPayload(env, s, c, session, chunk, msg);
    if c'.written != c.written {
      TotalLenAppend(c.written, (chunk.file, msg));
    }
  }

  /** The chunks of a connection's history grow by the chunk of the message. */
  lemma HistoryGrows(env: Env, s: Store, c: Conn, msg: Bytes, inp: Input, d: Digest)
    ensures var (s', c') := OnMessage(env, s, c, msg, inp);
            && Tagged(c'.written, d) == Tagged(c.written, d) + BytesOf(NewChunk(c, c', d))
            && (NewChunk(c, c', d).Some? && c'.status != Panic ==> d in s'.cached)
  {
    if c.status == Running && c.session.Some? && c.numChunks != c.session.value.header.numChunks && c.chunk.Some? {
      PayloadHistory(env, s, c, c.session.value, c.chunk.value, msg, d);
    } else {
      assert OnMessage(env, s, c, msg, inp).1.written == c.written;
    }
  }

  lemma ShareStep(env: Env, s: Site, e: Event, k: nat, d: Digest)
    requires k in s.conns && k in Step(env, s, e).conns && e != Disconnect(k) && !e.Restart?
    ensures var s' := Step(env, s, e);
            var more := Appended(s, s', e, d);
            && |more| <= 1
            && Tagged(s'.conns[k].written, d)
               == Tagged(s.conns[k].written, d) + (if more != [] && more[0].conn == k then more[0].bytes else [])
            && (more != [] && more[0].conn == k && s'.conns[k].status != Panic ==> d in s'.store.cached)
  {
    if e.Message? && e.conn in s.conns && Timely(s.conns[e.conn], e.inp) {
      HistoryGrows(env, s.store, s.conns[e.conn], e.msg, e.inp, d);
    }
  }

  lemma Connected(env: Env, before: seq<Event>, k: nat, d: Digest)
    requires k !in Run(env, before).conns
    ensures var events := before + [Connect(k)];
            && Run(env, events) == Run(env, before).(conns := Run(env, before).conns[k := NewConn()])
            && Log(env, events, d) == Log(env, before, d)
  {
    var events := before + [Connect(k)];
    assert events[..|events| - 1] == before;
    assert Log(env, before, d) + [] == Log(env, before, d);
  }

  /** What the log looks like after the connection: the entries before it, then
      entries of which those of `k` are its chunks. */
  ghost predicate Shares(before: seq<Entry>, now: seq<Entry>, k: nat, c: Conn, d: Digest) {
    before <= now && PartOf(now[|before|..], k) == Tagged(c.written, d)
  }

  lemma SharesMore(before: seq<Entry>, now: seq<Entry>, more: seq<Entry>, k: nat, c: Conn, c': Conn, d: Digest)
    requires Shares(before, now, k, c, d) && |more| <= 1
    requires Tagged(c'.written, d)
          == Tagged(c.written, d) + if more != [] && more[0].conn == k then more[0].bytes else []
    ensures Shares(before, now + more, k, c', d)
  {
    assert (now + more)[|before|..] == now[|before|..] + more;
    PartMore(now[|before|..], more, k);
  }

  /** Of everything appended to a file since a connection was made, the part of
      that connection is its own chunks for the file, in order. */
  lemma {:induction false} OwnShare(env: Env, before: seq<Event>, k: nat, after: seq<Event>, d: Digest)
    requires Undisturbed(env, before, k, after, d)
    ensures var events := before + [Connect(k)] + after;
            && k in Run(env, events).conns
            && Shares(Log(env, before, d), Log(env, events, d), k, Run(env, events).conns[k], d)
    decreases |after|
  {
    if after == [] {
      assert before + [Connect(k)] + after == before + [Connect(k)];
      Connected(env, before, k, d);
      var log := Log(env, before, d);
      assert log[|log|..] == [];
    } else {
      var earlier := after[..|after| - 1];
      var events, shorter := before + [Connect(k)] + after, before + [Connect(k)] + earlier;
      OwnShare(env, before, k, earlier, d);
      RunSnoc(env, before, k, after);
      ShareGrows(env, Log(env, before, d), shorter, events, k, d);
    }
  }

  lemma ShareGrows(env: Env, log0: seq<Entry>, shorter: seq<Event>, events: seq<Event>, k: nat, d: Digest)
    requires events != [] && events[..|events| - 1] == shorter
    requires var e, s, s' := events[|events| - 1], Run(env, shorter), Run(env, events);
             && k in s.conns && k in s'.conns && e != Disconnect(k) && !e.Restart?
             && s'.conns[k].status != Panic && (d in s.store.cached ==> d in s'.store.cached)
    requires Shares(log0, Log(env, shorter, d), k, Run(env, shorter).conns[k], d)
    ensures Shares(log0, Log(env, events, d), k, Run(env, events).conns[k], d)
  {
    var e, s, s' := events[|events| - 1], Run(env, shorter), Run(env, events);
    ShareStep(env, s, e, k, d);
    var more := Appended(s, s', e, d);
    if d in s'.store.cached {
      SharesMore(log0, Log(env, shorter, d), more, k, s.conns[k], s'.conns[k], d);
    } else {
      SharesMore(log0, [], [], k, s.conns[k], s'.conns[k], d);
    }
  }

  lemma {:induction false} JoinedSplit(a: seq<Entry>, b: seq<Entry>)
    ensures Joined(a + b) == Joined(a) + Joined(b)
    decreases |b|
  {
    if b == [] {
      assert a + b == a;
    } else {
      var n := |b| - 1;
      JoinedSplit(a, b[..n]);
      assert b == b[..n] + [b[n]];
      Assoc(a, b[..n], [b[n]]);
      JoinedMore(a + b[..n], [b[n]]);
      Assoc(Joined(a), Joined(b[..n]), b[n].bytes);
    }
  }

  lemma {:induction false} AllOfOne(log: seq<Entry>, k: nat)
    requires forall x :: x in log ==> x.conn == k
    ensures Joined(log) == PartOf(log, k)
  {
    if log != [] {
      AllOfOne(log[..|log| - 1], k);
    }
  }

  /** A file no one else appends to meanwhile is what it was at the connection,
      followed by the connection's own chunks for it. */
  lemma SoleWriterAppends(env: Env, before: seq<Event>, k: nat, after: seq<Event>, d: Digest)
    requires Undisturbed(env, before, k, after, d)
    requires var log := Log(env, before + [Connect(k)] + after, d);
             forall i :: |Log(env, before, d)| <= i < |log| ==> log[i].conn == k
    ensures var s, s' := Run(env, before), Run(env, before + [Connect(k)] + after);
            && k in s'.conns
            && Contents(s'.store.cached, d) == Contents(s.store.cached, d) + Tagged(s'.conns[k].written, d)
  {
    var events := before + [Connect(k)] + after;
    OwnShare(env, before, k, after, d);
    CachedFilesInterleave(env, before, d);
    CachedFilesInterleave(env, events, d);
    RestOfOne(Log(env, before, d), Log(env, events, d), k);
  }

  lemma RestOfOne(log0: seq<Entry>, log: seq<Entry>, k: nat)
    requires log0 <= log && forall i :: |log0| <= i < |log| ==> log[i].conn == k
    ensures Joined(log) == Joined(log0) + PartOf(log[|log0|..], k)
  {
    assert log == log0 + log[|log0|..];
    JoinedSplit(log0, log[|log0|..]);
    AllOfOne(log[|log0|..], k);
  }
}
