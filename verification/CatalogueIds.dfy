/** What upload ids lead to: the item that was claimed with them, with the title,
    creator and size of the request, whatever is uploaded or restarted since. */
module CatalogueIds {
  import opened Common
  import opened Frames
  import opened Uploads
  import opened Catalogue

  // ---------- what a message writes ----------

  /** A message changes no item, or publishes the one of its connection's session,
      which keeps title, creator and size. */
  lemma OnlyOwnItem(env: Env, s: Store, c: Conn, msg: Bytes, inp: Input)
    ensures var (s1, c1) := OnMessage(env, s, c, msg, inp);
            && (c1.status != Published ==> s1.software == s.software)
            && (c.status == Published ==> s1.software == s.software)
            && (s1.software != s.software ==>
                  && c.session.Some?
                  && var item := c.session.value.item;
                     s1.software
                     == s.software[item.id :=
                                     item.(files := c.session.value.header.files, creationTime := Some(inp.now))])
  {
    if c.status == Running && c.session.Some? && c.numChunks == c.session.value.header.numChunks && c.uploadedImage {
      PromoteSoftware(env, s, inp.order);
    }
  }

  lemma {:induction false} PromoteSoftware(env: Env, s: Store, order: seq<Digest>)
    ensures Promote(env, s, order).0.software == s.software
    decreases |order|
  {
    if order != [] && order[0] in s.cached && env.hash(s.cached[order[0]]) == order[0] {
      PromoteSoftware(env, PromoteOne(s, order[0]), order[1..]);
    }
  }

  /** A session is only ever begun, with an item of the tree. */
  lemma SessionItem(env: Env, s: Store, c: Conn, msg: Bytes, inp: Input)
    ensures var c1 := OnMessage(env, s, c, msg, inp).1;
            && (c.session.Some? ==> c1.session == c.session)
            && (c.session.None? && c1.session.Some? ==>
                  exists id :: id in s.software && s.software[id] == c1.session.value.item)
  {
    var c1 := OnMessage(env, s, c, msg, inp).1;
    if c.status == Running && c.session.None? && c1.session.Some? {
      assert s.uploadIds[c1.session.value.header.uploadId] in s.software;
    }
  }

  // ---------- the claim that is followed ----------

  /** A claim: the request's title, creator and size, the id taken and the upload id. */
  datatype Deed = Deed(id: nat, title: Bytes, creator: Bytes, size: nat, uploadId: Digest)

  predicate Bears(item: Item, d: Deed) {
    item.id == d.id && item.title == d.title && item.creator == d.creator && item.compressedSize == d.size
  }

  /** The claim's item has been inserted by the call or its upload id is known. */
  ghost predicate Stored(s: Site, d: Deed) {
    d.uploadId in s.store.uploadIds || exists k :: k in s.creating && s.creating[k] == Inserted(d.id, d.uploadId)
  }

  /** The call is still at work, or has stored the item. */
  ghost predicate Alive(s: Site, d: Deed) {
    d.uploadId in s.store.uploadIds || exists k :: k in s.creating && s.creating[k].uploadId == d.uploadId
  }

  function IdOf(c: Creating): nat {
    match c case Claimed(item, _) => item.id case Inserted(id, _) => id
  }

  /** Calls with the upload id have the claim's item, calls with another have another. */
  predicate CallOk(c: Creating, d: Deed) {
    if c.uploadId == d.uploadId then (c.Claimed? ==> Bears(c.item, d)) && IdOf(c) == d.id else IdOf(c) != d.id
  }

  predicate SessionOk(c: Conn, d: Deed) {
    c.session.Some? && c.session.value.item.id == d.id ==> Bears(c.session.value.item, d)
  }

  ghost predicate DeedOk(s: Site, d: Deed) {
    Alive(s, d) ==>
      && d.id < s.nextId
      && (forall k :: k in s.creating ==> CallOk(s.creating[k], d))
      && (forall u :: u in s.store.uploadIds ==> (s.store.uploadIds[u] == d.id <==> u == d.uploadId))
      && (Stored(s, d) ==> d.id in s.store.software && Bears(s.store.software[d.id], d))
      && (Stored(s, d) ==> forall k :: k in s.conns ==> SessionOk(s.conns[k], d))
  }

  /** The event claims nothing with this upload id. */
  predicate Apart(e: Event, d: Deed) {
    e.Claim? ==> e.uploadId != d.uploadId
  }

  lemma ClaimDeed(env: Env, s: Site, e: Event, d: Deed)
    requires SiteOk(env, s) && DeedOk(s, d) && e.Claim? && Apart(e, d)
    ensures DeedOk(Step(env, s, e), d)
  {
    var s' := Step(env, s, e);
    if Alive(s', d) && s' != s {
      assert s'.creating == s.creating[e.call := s'.creating[e.call]] && e.call !in s.creating;
      assert s'.creating[e.call].uploadId != d.uploadId;
      forall k | k in s.creating ensures s'.creating[k] == s.creating[k] {}
      assert Alive(s, d);
    }
  }

  lemma InsertItemDeed(env: Env, s: Site, call: nat, d: Deed)
    requires SiteOk(env, s) && DeedOk(s, d)
    ensures DeedOk(Step(env, s, InsertItem(call)), d)
  {
    var s' := Step(env, s, InsertItem(call));
    if call in s.creating && s.creating[call].Claimed? && Alive(s', d) {
      var c := s.creating[call];
      assert ClaimOk(s, c) && s'.creating[call].uploadId == c.uploadId;
      forall k | k in s.creating && k != call ensures s'.creating[k] == s.creating[k] {}
      AliveBefore(s, s', call, d);
      assert CallOk(c, d);
      forall k | k in s.conns && c.item.id == d.id ensures SessionOk(s.conns[k], d) {
        assert ConnOk(s.store, s.conns[k]);
      }
      if Stored(s', d) && c.item.id != d.id {
        StoredBefore(s, s', call, d);
      }
    }
  }

  lemma AliveBefore(s: Site, s': Site, call: nat, d: Deed)
    requires call in s.creating && s'.creating.Keys == s.creating.Keys && Alive(s', d)
    requires forall k :: k in s.creating ==> s'.creating[k].uploadId == s.creating[k].uploadId
    requires s'.store.uploadIds == s.store.uploadIds
    ensures Alive(s, d)
  {
  }

  lemma StoredBefore(s: Site, s': Site, call: nat, d: Deed)
    requires call in s.creating && s'.creating.Keys == s.creating.Keys && Stored(s', d)
    requires forall k :: k in s.creating && k != call ==> s'.creating[k] == s.creating[k]
    requires s'.creating[call] != Inserted(d.id, d.uploadId) && s'.store.uploadIds == s.store.uploadIds
    ensures Stored(s, d)
  {
  }

  lemma InsertUploadIdDeed(env: Env, s: Site, call: nat, d: Deed)
    requires SiteOk(env, s) && DeedOk(s, d)
    ensures DeedOk(Step(env, s, InsertUploadId(call)), d)
  {
    var s' := Step(env, s, InsertUploadId(call));
    if call in s.creating && s.creating[call].Inserted? && Alive(s', d) {
      var c := s.creating[call];
      assert Alive(s, d);
      assert CallOk(c, d);
      if c.uploadId == d.uploadId {
        assert c == Inserted(d.id, d.uploadId);
      }
      assert Stored(s', d) ==> Stored(s, d);
    }
  }

  lemma MessageDeed(env: Env, s: Site, conn: nat, msg: Bytes, inp: Input, d: Deed)
    requires SiteOk(env, s) && DeedOk(s, d)
    ensures DeedOk(Step(env, s, Message(conn, msg, inp)), d)
  {
    var s' := Step(env, s, Message(conn, msg, inp));
    if conn in s.conns && Timely(s.conns[conn], inp) {
      var c := s.conns[conn];
      var (store, c1) := OnMessage(env, s.store, c, msg, inp);
      MessageIds(env, s.store, c, msg, inp);
      assert Stored(s', d) <==> Stored(s, d);
      assert Alive(s', d) <==> Alive(s, d);
      if Stored(s, d) && Alive(s, d) {
        MessageBears(env, s.store, c, msg, inp, d);
      }
    }
  }

  lemma MessageIds(env: Env, s: Store, c: Conn, msg: Bytes, inp: Input)
    ensures OnMessage(env, s, c, msg, inp).0.uploadIds == s.uploadIds
  {
    if c.status == Running && c.session.Some? && c.numChunks == c.session.value.header.numChunks && c.uploadedImage {
      PromoteIds(env, s, inp.order);
    }
  }

  lemma {:induction false} PromoteIds(env: Env, s: Store, order: seq<Digest>)
    ensures Promote(env, s, order).0.uploadIds == s.uploadIds
    decreases |order|
  {
    if order != [] && order[0] in s.cached && env.hash(s.cached[order[0]]) == order[0] {
      PromoteIds(env, PromoteOne(s, order[0]), order[1..]);
    }
  }

  lemma MessageBears(env: Env, s: Store, c: Conn, msg: Bytes, inp: Input, d: Deed)
    requires forall id :: id in s.software ==> s.software[id].id == id
    requires d.id in s.software && Bears(s.software[d.id], d) && SessionOk(c, d)
    ensures var (s1, c1) := OnMessage(env, s, c, msg, inp);
            d.id in s1.software && Bears(s1.software[d.id], d) && SessionOk(c1, d)
  {
    OnlyOwnItem(env, s, c, msg, inp);
    SessionItem(env, s, c, msg, inp);
  }

  lemma OtherDeed(env: Env, s: Site, e: Event, d: Deed)
    requires SiteOk(env, s) && DeedOk(s, d) && (e.Connect? || e.Disconnect?)
    ensures DeedOk(Step(env, s, e), d)
  {
    var s' := Step(env, s, e);
    assert s'.store == s.store && s'.creating == s.creating;
    assert Stored(s', d) <==> Stored(s, d);
    assert Alive(s', d) <==> Alive(s, d);
  }

  lemma RestartDeed(env: Env, s: Site, d: Deed)
    requires SiteOk(env, s) && DeedOk(s, d)
    ensures DeedOk(Step(env, s, Restart), d)
  {
    var s' := Step(env, s, Restart);
    if Alive(s', d) {
      assert d.uploadId in s.store.uploadIds && Stored(s, d);
    }
  }

  lemma StepDeed(env: Env, s: Site, e: Event, d: Deed)
    requires SiteOk(env, s) && DeedOk(s, d) && Apart(e, d)
    ensures DeedOk(Step(env, s, e), d)
  {
    match e
    case Claim(_, _, _, _, _) => ClaimDeed(env, s, e, d);
    case InsertItem(call) => InsertItemDeed(env, s, call, d);
    case InsertUploadId(call) => InsertUploadIdDeed(env, s, call, d);
    case Message(conn, msg, inp) => MessageDeed(env, s, conn, msg, inp, d);
    case Restart => RestartDeed(env, s, d);
    case _ => OtherDeed(env, s, e, d);
  }

  // ---------- over whole runs ----------

  lemma {:induction false} FreshDeed(env: Env, events: seq<Event>, d: Deed)
    requires forall e :: e in events ==> Apart(e, d)
    ensures !Alive(Run(env, events), d)
  {
    if events != [] {
      var before, e := events[..|events| - 1], events[|events| - 1];
      FreshDeed(env, before, d);
      StillFresh(env, Run(env, before), e, d);
    }
  }

  lemma StillFresh(env: Env, s: Site, e: Event, d: Deed)
    requires !Alive(s, d) && Apart(e, d)
    ensures !Alive(Step(env, s, e), d)
  {
    if e.Message? && e.conn in s.conns && Timely(s.conns[e.conn], e.inp) {
      MessageIds(env, s.store, s.conns[e.conn], e.msg, e.inp);
    }
  }

  lemma DeedDone(env: Env, s: Site, call: nat, d: Deed)
    requires SiteOk(env, s) && !Alive(s, d) && call !in s.creating
    requires d.id == s.nextId && d.size <= MAX_COMPRESSED_SIZE
    ensures DeedOk(Step(env, s, Claim(call, d.title, d.creator, d.size, d.uploadId)), d)
  {
    var s' := Step(env, s, Claim(call, d.title, d.creator, d.size, d.uploadId));
    forall k | k in s'.creating ensures CallOk(s'.creating[k], d) {
      if k != call {
        assert ClaimOk(s, s.creating[k]) && s.creating[k].uploadId != d.uploadId;
      }
    }
    assert !Stored(s', d);
  }

  lemma {:induction false} DeedKept(env: Env, before: seq<Event>, after: seq<Event>, d: Deed)
    requires LawfulText(env.text) && DeedOk(Run(env, before), d)
    requires forall e :: e in after ==> Apart(e, d)
    ensures DeedOk(Run(env, before + after), d)
    decreases |after|
  {
    if after == [] {
      assert before + after == before;
    } else {
      var n := |after| - 1;
      DeedKept(env, before, after[..n], d);
      RunKeeps(env, before + after[..n]);
      assert before + after == before + after[..n] + [after[n]];
      RunMore(env, before + after[..n], after[n]);
      StepDeed(env, Run(env, before + after[..n]), after[n], d);
    }
  }

  /** In every later state, a fresh upload id that is known leads to the item claimed
      with it, which has the title, creator and size of the request, and no other
      upload id leads there. */
  lemma UploadIdLeads(env: Env, before: seq<Event>, call: nat, title: Bytes, creator: Bytes, size: nat,
                      uploadId: Digest, after: seq<Event>)
    requires LawfulText(env.text) && call !in Run(env, before).creating && size <= 10_485_760
    requires forall e :: e in before || e in after ==> e.Claim? ==> e.uploadId != uploadId
    ensures var store := Run(env, before + [Claim(call, title, creator, size, uploadId)] + after).store;
            var id := Run(env, before).nextId;
            uploadId in store.uploadIds ==>
              && store.uploadIds[uploadId] == id
              && (forall u :: u in store.uploadIds && u != uploadId ==> store.uploadIds[u] != id)
              && id in store.software && store.software[id].id == id && store.software[id].title == title
              && store.software[id].creator == creator && store.software[id].compressedSize == size
  {
    var d := Deed(Run(env, before).nextId, title, creator, size, uploadId);
    var claim := Claim(call, title, creator, size, uploadId);
    RunKeeps(env, before);
    FreshDeed(env, before, d);
    DeedDone(env, Run(env, before), call, d);
    RunMore(env, before, claim);
    DeedKept(env, before + [claim], after, d);
  }
}
