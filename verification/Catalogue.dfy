/** The software catalogue over any number of creations, upload connections and
    restarts, their steps interleaved in any order. */
module Catalogue {
  import opened Common
  import opened Frames
  import opened Uploads

  /** A call of `new_software` between its tree writes. */
  datatype Creating =
    | Claimed(item: Item, uploadId: Digest)
    | Inserted(id: nat, uploadId: Digest)

  datatype Site = Site(store: Store, nextId: nat, creating: map<nat, Creating>, conns: map<nat, Conn>)

  datatype Event =
    // new_software, after payment: take an id, insert the item, insert the upload id
    | Claim(call: nat, title: Bytes, creator: Bytes, compressedSize: nat, uploadId: Digest)
    | InsertItem(call: nat)
    | InsertUploadId(call: nat)
    // upload_software
    | Connect(conn: nat)
    | Message(conn: nat, msg: Bytes, inp: Input)
    | Disconnect(conn: nat)
    // the process stops and starts again over the same trees and directories
    | Restart

  function NewSite(): Site {
    Site(Store(map[], map[], map[], map[]), 0, map[], map[])
  }

  /** An item as `new_software` builds it: no files, not yet created. */
  function NewItem(id: nat, title: Bytes, creator: Bytes, compressedSize: nat): Item {
    Item(id, title, creator, compressedSize, map[], None)
  }

  ghost function Largest(keys: set<nat>): (m: nat)
    requires keys != {}
    ensures m in keys && forall k :: k in keys ==> k <= m
    decreases keys
  {
    var k :| k in keys;
    if keys == {k} then k
    else
      var m := Largest(keys - {k});
      assert keys == (keys - {k}) + {k};
      Max(k, m)
  }

  /** The id counter a start of the server computes from the software tree. */
  ghost function StartId(software: map<nat, Item>): nat {
    if software.Keys == {} then 0 else Largest(software.Keys) + 1
  }

  /** One step; an event that does not apply leaves the site as it is. */
  ghost function Step(env: Env, s: Site, e: Event): Site {
    match e
    case Claim(call, title, creator, size, uploadId) =>
      if call in s.creating || size > MAX_COMPRESSED_SIZE then s
      else s.(nextId := s.nextId + 1,
              creating := s.creating[call := Claimed(NewItem(s.nextId, title, creator, size), uploadId)])
    case InsertItem(call) =>
      if call in s.creating && s.creating[call].Claimed? then
        var item := s.creating[call].item;
        s.(store := s.store.(software := s.store.software[item.id := item]),
           creating := s.creating[call := Inserted(item.id, s.creating[call].uploadId)])
      else s
    case InsertUploadId(call) =>
      if call in s.creating && s.creating[call].Inserted? then
        var c := s.creating[call];
        s.(store := s.store.(uploadIds := s.store.uploadIds[c.uploadId := c.id]),
           creating := s.creating - {call})
      else s
    case Connect(conn) =>
      if conn in s.conns then s else s.(conns := s.conns[conn := NewConn()])
    case Message(conn, msg, inp) =>
      if conn in s.conns && Timely(s.conns[conn], inp) then
        var (store, c) := OnMessage(env, s.store, s.conns[conn], msg, inp);
        s.(store := store, conns := s.conns[conn := c])
      else s
    case Disconnect(conn) => s.(conns := s.conns - {conn})
    case Restart => s.(nextId := StartId(s.store.software), creating := map[], conns := map[])
  }

  /** The recorded iteration order is one of the connection's file table. */
  ghost predicate Timely(c: Conn, inp: Input) {
    c.session.Some? ==> Enumerates(inp.order, c.session.value.header.files.Keys)
  }

  ghost function Run(env: Env, events: seq<Event>): Site {
    if events == [] then NewSite()
    else Step(env, Run(env, events[..|events| - 1]), events[|events| - 1])
  }

  lemma RunMore(env: Env, events: seq<Event>, e: Event)
    ensures Run(env, events + [e]) == Step(env, Run(env, events), e)
  {
    assert (events + [e])[..|events|] == events;
  }

  // ---------- the invariant ----------

  predicate ClaimOk(s: Site, c: Creating) {
    match c
    case Claimed(item, _) =>
      && item.id < s.nextId && item.id !in s.store.software
      && item.compressedSize <= MAX_COMPRESSED_SIZE && item.files == map[] && item.creationTime.None?
    case Inserted(id, _) => id in s.store.software
  }

  predicate ApartClaims(c: Creating, d: Creating) {
    c.Claimed? && d.Claimed? ==> c.item.id != d.item.id
  }

  predicate ClaimsOk(s: Site) {
    && (forall k :: k in s.creating ==> ClaimOk(s, s.creating[k]))
    && (forall j, k :: j in s.creating && k in s.creating && j != k ==> ApartClaims(s.creating[j], s.creating[k]))
  }

  predicate IdsBelow(s: Site) {
    forall id :: id in s.store.software ==> id < s.nextId
  }

  predicate ConnsOk(s: Site) {
    forall k :: k in s.conns ==> ConnOk(s.store, s.conns[k])
  }

  predicate SiteOk(env: Env, s: Site) {
    StoreOk(env, s.store) && IdsBelow(s) && ClaimsOk(s) && ConnsOk(s)
  }

  /** Connections only need ids not to disappear. */
  lemma ConnStands(s: Store, s': Store, c: Conn)
    requires ConnOk(s, c) && s.software.Keys <= s'.software.Keys
    ensures ConnOk(s', c)
  {
  }

  lemma ClaimKeeps(env: Env, s: Site, e: Event)
    requires SiteOk(env, s) && e.Claim?
    ensures SiteOk(env, Step(env, s, e)) && Grows(s.store, Step(env, s, e).store)
  {
  }

  lemma InsertUploadIdKeeps(env: Env, s: Site, call: nat)
    requires SiteOk(env, s)
    ensures SiteOk(env, Step(env, s, InsertUploadId(call)))
    ensures Grows(s.store, Step(env, s, InsertUploadId(call)).store)
  {
  }

  lemma InsertItemKeeps(env: Env, s: Site, call: nat)
    requires SiteOk(env, s)
    ensures SiteOk(env, Step(env, s, InsertItem(call))) && Grows(s.store, Step(env, s, InsertItem(call)).store)
  {
  }

  lemma MessageStepKeeps(env: Env, s: Site, conn: nat, msg: Bytes, inp: Input)
    requires LawfulText(env.text) && SiteOk(env, s)
    ensures var s' := Step(env, s, Message(conn, msg, inp));
            SiteOk(env, s') && Grows(s.store, s'.store)
  {
    var s' := Step(env, s, Message(conn, msg, inp));
    if conn in s.conns && Timely(s.conns[conn], inp) {
      MessageKeeps(env, s.store, s.conns[conn], msg, inp);
      forall k | k in s'.conns ensures ConnOk(s'.store, s'.conns[k]) {
        if k != conn {
          ConnStands(s.store, s'.store, s.conns[k]);
        }
      }
      forall k | k in s'.creating ensures ClaimOk(s', s'.creating[k]) {
        assert ClaimOk(s, s.creating[k]);
      }
    }
  }

  lemma StepKeeps(env: Env, s: Site, e: Event)
    requires LawfulText(env.text) && SiteOk(env, s)
    ensures SiteOk(env, Step(env, s, e)) && Grows(s.store, Step(env, s, e).store)
  {
    match e
    case Claim(_, _, _, _, _) => ClaimKeeps(env, s, e);
    case InsertUploadId(call) => InsertUploadIdKeeps(env, s, call);
    case InsertItem(call) => InsertItemKeeps(env, s, call);
    case Message(conn, msg, inp) => MessageStepKeeps(env, s, conn, msg, inp);
    case _ =>
  }

  // ---------- over whole runs ----------

  lemma {:induction false} RunKeeps(env: Env, events: seq<Event>)
    requires LawfulText(env.text)
    ensures SiteOk(env, Run(env, events))
  {
    if events == [] {
    } else {
      var n := |events| - 1;
      RunKeeps(env, events[..n]);
      StepKeeps(env, Run(env, events[..n]), events[n]);
    }
  }

  lemma GrowsOn(s: Store, s1: Store, s2: Store)
    requires Grows(s, s1) && Grows(s1, s2)
    ensures Grows(s, s2)
  {
  }

  /** Nothing published is ever withdrawn: ids, published items and game files
      of a run are still there after any continuation of it. */
  lemma {:induction false} RunGrows(env: Env, events: seq<Event>, more: seq<Event>)
    requires LawfulText(env.text)
    ensures Grows(Run(env, events).store, Run(env, events + more).store)
    decreases |more|
  {
    if more == [] {
      assert events + more == events;
    } else {
      var n := |more| - 1;
      RunGrows(env, events, more[..n]);
      var all := events + more;
      var before := events + more[..n];
      assert all[..|all| - 1] == before && all[|all| - 1] == more[n];
      RunKeeps(env, before);
      StepKeeps(env, Run(env, before), more[n]);
      GrowsOn(Run(env, events).store, Run(env, before).store, Run(env, all).store);
    }
  }

  /** Every file a published item lists is in the game files under its name and
      hashes to that name, whatever else is going on. */
  lemma PublishedFilesVerified(env: Env, events: seq<Event>, id: nat, h: Digest)
    requires LawfulText(env.text)
    requires var store := Run(env, events).store;
             id in store.software && store.software[id].creationTime.Some? && h in store.software[id].files
    ensures var store := Run(env, events).store;
            h in store.game && env.hash(store.game[h]) == h
  {
    RunKeeps(env, events);
    var store := Run(env, events).store;
    assert ItemOk(store, store.software[id]);
  }

  /** Ids: every key is below the counter and is its item's id, an insertion never
      overwrites, and every upload id leads to an item. */
  lemma IdsNeverClash(env: Env, events: seq<Event>)
    requires LawfulText(env.text)
    ensures var s := Run(env, events);
            && (forall id :: id in s.store.software ==> id < s.nextId && s.store.software[id].id == id)
            && (forall k :: k in s.creating && s.creating[k].Claimed? ==>
                  s.creating[k].item.id !in s.store.software)
            && (forall u :: u in s.store.uploadIds ==> s.store.uploadIds[u] in s.store.software)
  {
    RunKeeps(env, events);
    var s := Run(env, events);
    forall k | k in s.creating && s.creating[k].Claimed? ensures s.creating[k].item.id !in s.store.software {
      assert ClaimOk(s, s.creating[k]);
    }
  }

  /** The counter: a claim takes one id; a restart goes on behind the largest id of
      the tree, or from 0. */
  lemma CounterSteps(env: Env, s: Site, e: Event)
    ensures e.Claim? && e.call !in s.creating && e.compressedSize <= 10_485_760 ==>
              Step(env, s, e).nextId == s.nextId + 1
    ensures !e.Claim? && !e.Restart? ==> Step(env, s, e).nextId == s.nextId
    ensures e.Restart? && s.store.software == map[] ==> Step(env, s, e).nextId == 0
    ensures e.Restart? && s.store.software != map[] ==>
              && Step(env, s, e).nextId - 1 in s.store.software
              && forall id :: id in s.store.software ==> id < Step(env, s, e).nextId
    ensures e.Restart? ==> Step(env, s, e).store == s.store
  {
    if e.Restart? && s.store.software != map[] {
      assert s.store.software.Keys != {};
      var largest := Largest(s.store.software.Keys);
    }
  }

  /** So the two unwraps behind an accepted upload header never fail. */
  lemma UploadLookupSucceeds(env: Env, events: seq<Event>, msg: Bytes, inp: Input)
    requires LawfulText(env.text)
    requires ParseHeader(env.text, Checks(inp.cookieOk, d => d in Run(env, events).store.uploadIds), msg).Accepted?
    ensures var c := OnHeader(env, Run(env, events).store, NewConn(), msg, inp);
            c.status == Running && c.session.Some?
  {
    RunKeeps(env, events);
    AcceptedHeader(env.text, Checks(inp.cookieOk, d => d in Run(env, events).store.uploadIds), msg);
  }

  /** On every connection of every run: what it appended to cached files stays
      within its payload and within the item's size, itself at most 10 MiB; the
      payload is counted exactly; the chunk counter stops at the declared number,
      at most 1280. */
  lemma UploadsAreBounded(env: Env, events: seq<Event>, conn: nat)
    requires LawfulText(env.text)
    requires conn in Run(env, events).conns && Run(env, events).conns[conn].session.Some?
    ensures var c := Run(env, events).conns[conn];
            var session := c.session.value;
            && TotalLen(c.written) <= c.totalSize == c.payload
            && TotalLen(c.written) <= session.item.compressedSize <= 10_485_760
            && (c.status == Running || c.status == Published ==> c.totalSize <= session.item.compressedSize)
            && c.numChunks <= session.header.numChunks <= 1280
  {
    RunKeeps(env, events);
    var s := Run(env, events);
    assert ConnOk(s.store, s.conns[conn]);
  }
}
