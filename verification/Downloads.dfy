/** Download counts and ownership: who has downloaded what, and how many
    downloads an item is credited with. */
module Downloads {
  import opened Common

  datatype Ordering = Less | Equal | Greater

  function Compare(a: int, b: int): Ordering {
    if a < b then Less else if a == b then Equal else Greater
  }

  datatype SoftwareDownload = SoftwareDownload(time: nat, username: Bytes) {
    /** The order of the download set looks at the time only. */
    function Cmp(other: SoftwareDownload): Ordering {
      Compare(time, other.time)
    }
  }

  /** `BTreeSet::insert`: an element equal in the set's order keeps its place. */
  function TreeInsert(s: set<SoftwareDownload>, d: SoftwareDownload): set<SoftwareDownload> {
    if exists e :: e in s && e.Cmp(d) == Equal then s else s + {d}
  }

  type Counts = map<nat, set<SoftwareDownload>>
  type Ownership = map<Bytes, map<nat, bool>>

  /** Number of downloads an item is credited with. */
  function CountOf(counts: Counts, id: nat): nat {
    if id in counts then |counts[id]| else 0
  }

  predicate Downloaded(owned: Ownership, user: Bytes, id: nat) {
    user in owned && id in owned[user] && owned[user][id]
  }

  /** `get_or_insert` of an empty set, as searches do. */
  function Touch(counts: Counts, id: nat): Counts {
    if id in counts then counts else counts[id := {}]
  }

  /** Two trees that credit every item with the same number of downloads. */
  ghost predicate SameCounts(c: Counts, c': Counts) {
    forall id :: CountOf(c, id) == CountOf(c', id)
  }

  // ---------- the trees and the handler ----------

  datatype Books = Books(counts: Counts, owned: Ownership)

  /** The bookkeeping at the end of a download. */
  function Record(b: Books, user: Bytes, id: nat, now: nat): Books {
    if Downloaded(b.owned, user, id)
    then b
    else
      var list := if user in b.owned then b.owned[user] else map[];
      var known := if id in b.counts then b.counts[id] else {};
      Books(b.counts[id := TreeInsert(known, SoftwareDownload(now, user))], b.owned[user := list[id := true]])
  }

  class DownloadTrees {
    var counts: Counts
    var owned: Ownership

    function View(): Books
      reads this
    {
      Books(counts, owned)
    }

    /** The stored downloads of an item, an empty set being stored if there are none. */
    method GetOrInsert(id: nat) returns (downloads: set<SoftwareDownload>)
      modifies this`counts
      ensures counts == Touch(old(counts), id)
      ensures downloads == counts[id] && |downloads| == CountOf(old(counts), id)
      ensures SameCounts(old(counts), counts)
    {
      if id !in counts {
        counts := counts[id := {}];
      }
      downloads := counts[id];
    }

    method AddToDownloadCount(user: Bytes, id: nat, now: nat)
      modifies this`counts
      ensures counts == old(counts)[id := TreeInsert(if id in old(counts) then old(counts)[id] else {},
                                                     SoftwareDownload(now, user))]
    {
      var downloads := if id in counts then counts[id] else {};
      downloads := TreeInsert(downloads, SoftwareDownload(now, user));
      counts := counts[id := downloads];
    }

    method RecordDownload(user: Bytes, id: nat, now: nat)
      modifies this
      ensures View() == Record(old(View()), user, id, now)
    {
      if user !in owned {
        owned := owned[user := map[]];
      }
      var list := owned[user];
      if id in list {
        if !list[id] {
          AddToDownloadCount(user, id, now);
          list := list[id := true];
        }
      } else {
        list := list[id := true];
        AddToDownloadCount(user, id, now);
      }
      owned := owned[user := list];
      assert list == owned[user];
      assert Downloaded(old(owned), user, id) ==> owned == old(owned);
    }
  }

  // ---------- whole runs ----------

  datatype Event =
    | Download(user: Bytes, id: nat, now: nat)
    | Search(id: nat)

  function Step(b: Books, e: Event): Books {
    match e
    case Download(user, id, now) => Record(b, user, id, now)
    case Search(id) => b.(counts := Touch(b.counts, id))
  }

  function Run(events: seq<Event>): Books {
    if events == [] then Books(map[], map[])
    else Step(Run(events[..|events| - 1]), events[|events| - 1])
  }

  /** The first downloads of item `id`, one per user, in order. */
  function Firsts(events: seq<Event>, id: nat): seq<SoftwareDownload> {
    if events == [] then []
    else
      var before, e := events[..|events| - 1], events[|events| - 1];
      Firsts(before, id)
      + if e.Download? && e.id == id && !Downloaded(Run(before).owned, e.user, id)
        then [SoftwareDownload(e.now, e.user)] else []
  }

  function TimesOf(firsts: seq<SoftwareDownload>): (r: seq<nat>)
    ensures |r| == |firsts| && forall i :: 0 <= i < |r| ==> r[i] == firsts[i].time
  {
    seq(|firsts|, i requires 0 <= i < |firsts| => firsts[i].time)
  }

  function NamesOf(firsts: seq<SoftwareDownload>): (r: seq<Bytes>)
    ensures |r| == |firsts| && forall i :: 0 <= i < |r| ==> r[i] == firsts[i].username
  {
    seq(|firsts|, i requires 0 <= i < |firsts| => firsts[i].username)
  }

  function Elements<T>(s: seq<T>): set<T> {
    set x | x in s
  }

  ghost predicate Distinct<T>(s: seq<T>) {
    forall i, j :: 0 <= i < j < |s| ==> s[i] != s[j]
  }

  /** The moments at which someone downloaded item `id` for the first time. */
  function FirstTimes(events: seq<Event>, id: nat): set<nat> {
    Elements(TimesOf(Firsts(events, id)))
  }

  ghost function Downloaders(owned: Ownership, id: nat): set<Bytes> {
    set user | user in owned && Downloaded(owned, user, id)
  }

  ghost predicate Apart(s: set<SoftwareDownload>) {
    forall d, e :: d in s && e in s && d != e ==> d.time != e.time && d.username != e.username
  }

  function Times(s: set<SoftwareDownload>): set<nat> {
    set d | d in s :: d.time
  }

  function Names(s: set<SoftwareDownload>): set<Bytes> {
    set d | d in s :: d.username
  }

  /** The downloads of an item have distinct times and distinct users, each user
      is marked, and the times are those of the first downloads. */
  ghost predicate BookOk(b: Books, id: nat, firsts: set<nat>) {
    var known := if id in b.counts then b.counts[id] else {};
    && Apart(known)
    && (forall d :: d in known ==> Downloaded(b.owned, d.username, id))
    && Times(known) == firsts
  }

  lemma InsertApart(known: set<SoftwareDownload>, d: SoftwareDownload)
    requires Apart(known) && d.username !in Names(known)
    ensures Apart(TreeInsert(known, d))
    ensures Times(TreeInsert(known, d)) == Times(known) + {d.time}
    ensures forall e :: e in TreeInsert(known, d) ==> e in known || e == d
  {
  }

  lemma ElementsAppend<T>(s: seq<T>, t: seq<T>)
    ensures Elements(s + t) == Elements(s) + Elements(t)
  {
  }

  lemma FirstTimesStep(events: seq<Event>, id: nat)
    requires events != []
    ensures var before, e := events[..|events| - 1], events[|events| - 1];
            FirstTimes(events, id) == FirstTimes(before, id)
              + if e.Download? && e.id == id && !Downloaded(Run(before).owned, e.user, id) then {e.now} else {}
  {
    var before, e := events[..|events| - 1], events[|events| - 1];
    var earlier := Firsts(before, id);
    if e.Download? && e.id == id && !Downloaded(Run(before).owned, e.user, id) {
      assert TimesOf(Firsts(events, id)) == TimesOf(earlier) + [e.now];
      ElementsAppend(TimesOf(earlier), [e.now]);
      assert Elements([e.now]) == {e.now};
    } else {
      assert Firsts(events, id) == earlier;
    }
  }

  lemma {:induction false} BooksOk(events: seq<Event>, id: nat)
    ensures BookOk(Run(events), id, FirstTimes(events, id))
  {
    if events == [] {
    } else {
      var before, e := events[..|events| - 1], events[|events| - 1];
      BooksOk(before, id);
      FirstTimesStep(events, id);
      var b := Run(before);
      if e.Download? && !Downloaded(b.owned, e.user, e.id) {
        var known := if id in b.counts then b.counts[id] else {};
        if e.id == id {
          InsertApart(known, SoftwareDownload(e.now, e.user));
        }
        var b' := Run(events);
        forall d | d in known ensures Downloaded(b'.owned, d.username, id) {
          assert Downloaded(b.owned, d.username, id);
        }
      }
    }
  }

  /** As many times as downloads, when the times are distinct. */
  lemma {:induction false} TimesCount(s: set<SoftwareDownload>)
    requires Apart(s)
    ensures |Times(s)| == |s|
    decreases s
  {
    if s == {} {
    } else {
      var d :| d in s;
      var rest := s - {d};
      TimesCount(rest);
      assert d.time !in Times(rest);
      assert Times(s) == Times(rest) + {d.time};
    }
  }

  lemma {:induction false} NamesCount(s: set<SoftwareDownload>)
    requires Apart(s)
    ensures |Names(s)| == |s|
    decreases s
  {
    if s == {} {
    } else {
      var d :| d in s;
      var rest := s - {d};
      NamesCount(rest);
      assert d.username !in Names(rest);
      assert Names(s) == Names(rest) + {d.username};
    }
  }

  lemma SubsetCount<T>(a: set<T>, b: set<T>)
    requires a <= b
    ensures |a| <= |b|
  {
    assert b == a + (b - a);
  }

  /** In every reachable state an item's download count is the number of distinct
      seconds at which first downloads happened, and never exceeds the number of
      users marked as having downloaded it. */
  lemma CountIsFirstDownloads(events: seq<Event>, id: nat)
    ensures CountOf(Run(events).counts, id) == |FirstTimes(events, id)|
    ensures CountOf(Run(events).counts, id) <= |Downloaders(Run(events).owned, id)|
    ensures id in Run(events).counts ==> Apart(Run(events).counts[id])
  {
    BooksOk(events, id);
    var b := Run(events);
    if id in b.counts {
      TimesCount(b.counts[id]);
      NamesCount(b.counts[id]);
      SubsetCount(Names(b.counts[id]), Downloaders(b.owned, id));
    } else {
      assert Times({}) == {};
    }
  }

  lemma {:induction false} CountDistinct<T>(s: seq<T>)
    ensures |Elements(s)| <= |s|
    ensures |Elements(s)| == |s| <==> Distinct(s)
  {
    if s == [] {
    } else {
      var n := |s| - 1;
      var init := s[..n];
      CountDistinct(init);
      assert s == init + [s[n]];
      assert Elements(s) == Elements(init) + {s[n]};
      if s[n] in Elements(init) {
        assert Elements(s) == Elements(init);
        var i :| 0 <= i < n && init[i] == s[n];
        assert s[i] == s[n];
      } else {
        assert Distinct(init) ==> Distinct(s);
        assert Distinct(s) ==> Distinct(init);
      }
    }
  }

  lemma DownloadersStep(b: Books, user: Bytes, id: nat, now: nat, other: nat)
    ensures var owned' := Record(b, user, id, now).owned;
            && Downloaders(owned', id) == Downloaders(b.owned, id) + {user}
            && (other != id ==> Downloaders(owned', other) == Downloaders(b.owned, other))
  {
  }

  /** Each downloader appears once among the first downloads. */
  lemma {:induction false} FirstsAreDownloaders(events: seq<Event>, id: nat)
    ensures Elements(NamesOf(Firsts(events, id))) == Downloaders(Run(events).owned, id)
    ensures Distinct(NamesOf(Firsts(events, id)))
  {
    if events == [] {
    } else {
      var before, e := events[..|events| - 1], events[|events| - 1];
      FirstsAreDownloaders(before, id);
      var earlier := Firsts(before, id);
      if e.Download? {
        DownloadersStep(Run(before), e.user, e.id, e.now, id);
      }
      if e.Download? && e.id == id && !Downloaded(Run(before).owned, e.user, id) {
        assert NamesOf(Firsts(events, id)) == NamesOf(earlier) + [e.user];
        ElementsAppend(NamesOf(earlier), [e.user]);
        assert e.user !in Elements(NamesOf(earlier));
      } else {
        assert Firsts(events, id) == earlier;
      }
    }
  }

  /** The count credits every downloader exactly when no two of the first
      downloads fell in the same second. */
  lemma CountIsExact(events: seq<Event>, id: nat)
    ensures CountOf(Run(events).counts, id) == |Downloaders(Run(events).owned, id)|
       <==> Distinct(TimesOf(Firsts(events, id)))
  {
    CountIsFirstDownloads(events, id);
    FirstsAreDownloaders(events, id);
    CountDistinct(NamesOf(Firsts(events, id)));
    CountDistinct(TimesOf(Firsts(events, id)));
  }

  /** A recorded download stays on record, whatever is downloaded or searched next. */
  lemma DownloadsStay(events: seq<Event>, e: Event, id: nat)
    requires id in Run(events).counts
    ensures id in Run(events + [e]).counts && Run(events).counts[id] <= Run(events + [e]).counts[id]
  {
    assert (events + [e])[..|events|] == events;
  }

  /** Two users who finish in the same second are credited as one download: the
      count falls short of the number of downloaders. */
  lemma SameSecondIsLost(alice: Bytes, bob: Bytes, id: nat, now: nat)
    requires alice != bob
    ensures var b := Run([Download(alice, id, now), Download(bob, id, now)]);
            && id in b.counts && b.counts[id] == {SoftwareDownload(now, alice)}
            && CountOf(b.counts, id) == 1 && Downloaders(b.owned, id) == {alice, bob}
  {
    var one := [Download(alice, id, now)];
    var two := [Download(alice, id, now), Download(bob, id, now)];
    assert one[..0] == [] && two[..1] == one;
    var a := SoftwareDownload(now, alice);
    assert Run(one) == Record(Books(map[], map[]), alice, id, now);
    assert Run(one).counts[id] == {a};
    assert a.Cmp(SoftwareDownload(now, bob)) == Equal;
    assert Run(two).counts[id] == {a};
  }
}
