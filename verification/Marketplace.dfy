/** Results that span the server: what is downloaded is what was uploaded and
    verified, and a search does not depend on how the tree is iterated. */
module Marketplace {
  import opened Common
  import opened Frames
  import opened Uploads
  import opened UploadRuns
  import Catalogue
  import DownloadStream
  import Downloads
  import Search
  import SearchOrder

  /** File systems report sizes in 64 bits. */
  ghost predicate SizesFit(files: map<Digest, Bytes>) {
    forall h :: h in files ==> |files[h]| < TWO_TO_THE_64
  }

  /** In every reachable state of the catalogue any item can be downloaded: no file
      is missing, the reply can be decoded, and every file a client ends up with
      hashes to the name the catalogue lists it under. */
  lemma DownloadsAreVerified(env: Env, events: seq<Catalogue.Event>, id: nat, got: seq<DownloadStream.Received>)
    requires LawfulText(env.text)
    requires var s := Catalogue.Run(env, events).store;
             id in s.software && SizesFit(s.game)
    ensures var s := Catalogue.Run(env, events).store;
            var files := s.software[id].files;
            && files.Keys <= s.game.Keys
            && DownloadStream.Sendable(files, s.game)
            && (DownloadStream.Delivered(files, s.game, got) ==>
                  forall f :: f in got ==> f.hash in files && f.name == files[f.hash] && env.hash(f.content) == f.hash)
  {
    Catalogue.RunKeeps(env, events);
    var s := Catalogue.Run(env, events).store;
    assert ItemOk(s, s.software[id]);
  }

  /** Upload, then download: a client's upload into a cache that holds none of its
      files, each hashing to its name, is published, and a download of the item
      then delivers the client's file names with, for each, the client's chunks
      for it put together in order. */
  lemma UploadThenDownload(env: Env, s: Store, u: Upload, imageHash: Digest, image: Bytes, last: Bytes, inp: Input,
                           got: seq<DownloadStream.Received>)
    requires LawfulText(env.text) && StoreOk(env, s) && WellFormed(env, s, u, inp)
    requires forall h :: h in u.header.files ==> h !in s.cached
    requires forall h :: h in u.header.files ==> h in Tags(u.chunks) && env.hash(Tagged(u.chunks, h)) == h
    requires var s1 := Receive(env, s, NewConn(), ClientMessages(u, imageHash, image, last), inp).0;
             var id := s.uploadIds[u.header.uploadId];
             id in s1.software ==> DownloadStream.Delivered(s1.software[id].files, s1.game, got)
    ensures forall f :: f in got ==>
              f.hash in FileTable(u.entries) && f.name == FileTable(u.entries)[f.hash]
              && f.content == Tagged(u.chunks, f.hash)
    ensures forall h :: h in FileTable(u.entries) ==> exists f :: f in got && f.hash == h
  {
    forall h | h in u.header.files
      ensures FinalContent(s, u, h) == Tagged(u.chunks, h) && FileReady(env, s, u, h)
    {
      assert [] + Tagged(u.chunks, h) == Tagged(u.chunks, h);
    }
    UploadPublishes(env, s, u, imageHash, image, last, inp);
  }

  // ---------- searches over a reachable catalogue ----------

  /** The items of the tree in the given iteration order. */
  function Scan(software: map<nat, Item>, order: seq<nat>): (r: seq<Item>)
    requires forall id :: id in order ==> id in software
    ensures |r| == |order| && forall i :: 0 <= i < |r| ==> r[i] == software[order[i]]
  {
    seq(|order|, i requires 0 <= i < |order| => software[order[i]])
  }

  lemma {:induction false} MatchIds(lower: Bytes -> Bytes, term: Bytes, scan: seq<Item>)
    requires SearchOrder.DistinctIds(scan)
    ensures SearchOrder.DistinctIds(Search.Matches(lower, term, scan))
    ensures forall x :: x in Search.Matches(lower, term, scan) <==> x in scan && Search.IsMatch(lower, term, x)
  {
    if scan == [] {
    } else {
      var n := |scan| - 1;
      MatchIds(lower, term, scan[..n]);
      assert scan == scan[..n] + [scan[n]];
      var before := Search.Matches(lower, term, scan[..n]);
      forall i | 0 <= i < |before| ensures before[i].id != scan[n].id {
        assert before[i] in before;
        var j :| 0 <= j < n && scan[..n][j] == before[i];
        assert scan[j].id != scan[n].id;
      }
    }
  }

  lemma DistinctMultiset(a: seq<Item>, b: seq<Item>)
    requires SearchOrder.DistinctIds(a) && SearchOrder.DistinctIds(b)
    requires forall x :: x in a <==> x in b
    ensures multiset(a) == multiset(b)
  {
    forall x ensures multiset(a)[x] == multiset(b)[x] {
      OneEach(a, x);
      OneEach(b, x);
    }
  }

  lemma {:induction false} OneEach(s: seq<Item>, x: Item)
    requires SearchOrder.DistinctIds(s)
    ensures multiset(s)[x] == if x in s then 1 else 0
  {
    if s == [] {
    } else {
      var n := |s| - 1;
      OneEach(s[..n], x);
      assert s == s[..n] + [s[n]];
      forall j | 0 <= j < n ensures s[..n][j] != s[n] {
        assert s[j].id != s[n].id;
      }
    }
  }

  lemma ScanIds(env: Env, events: seq<Catalogue.Event>, order: seq<nat>)
    requires LawfulText(env.text)
    requires Enumerates(order, Catalogue.Run(env, events).store.software.Keys)
    ensures var software := Catalogue.Run(env, events).store.software;
            && (forall id :: id in order ==> id in software)
            && SearchOrder.DistinctIds(Scan(software, order))
            && (forall x :: x in Scan(software, order) <==> exists id :: id in software && software[id] == x)
  {
    Catalogue.RunKeeps(env, events);
    var software := Catalogue.Run(env, events).store.software;
    forall id | id in order ensures id in software {}
    var scan := Scan(software, order);
    forall i | 0 <= i < |scan| ensures scan[i].id == order[i] {
      assert order[i] in software;
    }
    forall x | exists id :: id in software && software[id] == x ensures x in scan {
      var id :| id in software && software[id] == x;
      assert id in order;
      var i :| 0 <= i < |order| && order[i] == id;
      assert scan[i] == x;
    }
  }

  lemma SameMatches(env: Env, events: seq<Catalogue.Event>, order1: seq<nat>, order2: seq<nat>,
                    lower: Bytes -> Bytes, term: Bytes)
    requires LawfulText(env.text)
    requires var software := Catalogue.Run(env, events).store.software;
             Enumerates(order1, software.Keys) && Enumerates(order2, software.Keys)
    ensures var software := Catalogue.Run(env, events).store.software;
            && multiset(Search.Matches(lower, term, Scan(software, order1)))
               == multiset(Search.Matches(lower, term, Scan(software, order2)))
            && SearchOrder.DistinctIds(Search.Matches(lower, term, Scan(software, order1)))
  {
    var software := Catalogue.Run(env, events).store.software;
    ScanIds(env, events, order1);
    ScanIds(env, events, order2);
    MatchIds(lower, term, Scan(software, order1));
    MatchIds(lower, term, Scan(software, order2));
    DistinctMultiset(Search.Matches(lower, term, Scan(software, order1)),
                     Search.Matches(lower, term, Scan(software, order2)));
  }

  /** Every implemented order: two searches of a reachable catalogue keep equally
      many items of each rank, in whatever orders its tree is iterated. */
  lemma RanksIgnoreTreeOrder(env: Env, events: seq<Catalogue.Event>, order1: seq<nat>, order2: seq<nat>,
                             lower: Bytes -> Bytes, term: Bytes, alg: Search.SearchAlg, counts: Downloads.Counts,
                             kept1: seq<Item>, kept2: seq<Item>, k: nat, rank: int)
    requires LawfulText(env.text)
    requires var software := Catalogue.Run(env, events).store.software;
             && Enumerates(order1, software.Keys) && Enumerates(order2, software.Keys)
             && Search.TopK(alg, counts, kept1, Search.Matches(lower, term, Scan(software, order1)), k)
             && Search.TopK(alg, counts, kept2, Search.Matches(lower, term, Scan(software, order2)), k)
    ensures SearchOrder.CountAt(alg, counts, kept1, rank) == SearchOrder.CountAt(alg, counts, kept2, rank)
  {
    var software := Catalogue.Run(env, events).store.software;
    SameMatches(env, events, order1, order2, lower, term);
    SearchOrder.SelectionsAgree(alg, counts, kept1, Search.Matches(lower, term, Scan(software, order1)),
                                kept2, Search.Matches(lower, term, Scan(software, order2)), k, rank);
  }

  /** Newest and oldest: two searches of a reachable catalogue keep the same items,
      in whatever orders its tree is iterated. */
  lemma SearchIgnoresTreeOrder(env: Env, events: seq<Catalogue.Event>, order1: seq<nat>, order2: seq<nat>,
                               lower: Bytes -> Bytes, term: Bytes, alg: Search.SearchAlg, counts: Downloads.Counts,
                               kept1: seq<Item>, kept2: seq<Item>, k: nat)
    requires LawfulText(env.text) && (alg.Newest? || alg.Oldest?)
    requires var software := Catalogue.Run(env, events).store.software;
             && Enumerates(order1, software.Keys) && Enumerates(order2, software.Keys)
             && Search.TopK(alg, counts, kept1, Search.Matches(lower, term, Scan(software, order1)), k)
             && Search.TopK(alg, counts, kept2, Search.Matches(lower, term, Scan(software, order2)), k)
    ensures forall x :: x in kept1 <==> x in kept2
  {
    var software := Catalogue.Run(env, events).store.software;
    SameMatches(env, events, order1, order2, lower, term);
    SameMatches(env, events, order2, order1, lower, term);
    var m1 := Search.Matches(lower, term, Scan(software, order1));
    var m2 := Search.Matches(lower, term, Scan(software, order2));
    forall x ensures x in kept1 <==> x in kept2 {
      SearchOrder.IdOrdersIgnoreScanOrder(alg, counts, kept1, m1, kept2, m2, k, x);
      SearchOrder.IdOrdersIgnoreScanOrder(alg, counts, kept2, m2, kept1, m1, k, x);
    }
  }
}
