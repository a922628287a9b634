/** Emptying an R2 bucket page by page (`purge_r2_bucket_objects`, cli/src/deploy.rs). */
module Purge {
  import opened Common

  datatype Page = Page(keys: seq<string>, next: Option<string>)

  /** What the listing endpoint answers to its n-th call with the given cursor; None is an error. */
  type Listing = (nat, Option<string>) -> Option<Page>

  /** How a deletion call goes, its retries included: answered; repeated after the reply to a
      request that had worked was lost, and so answered "not found"; or given up, perhaps after
      the object was removed. */
  datatype Deletion = Answered | ReplyLost | GivenUp(removed: bool)

  predicate Removes(d: Deletion) {
    d.GivenUp? ==> d.removed
  }

  /** The deletion calls by number. */
  type Faults = nat -> Deletion

  /** The server hands out cursors from a finite set only. */
  ghost predicate Bounded(listing: Listing, cursors: set<string>) {
    forall n: nat, c :: listing(n, c).Some? && listing(n, c).value.next.Some? ==>
        listing(n, c).value.next.value in cursors
  }

  class Bucket {
    var objects: set<string>

    constructor (objects: set<string>)
      ensures this.objects == objects
    {
      this.objects := objects;
    }

    /** Whether the key was found is reported, unless the reply got lost or the call failed. */
    method Delete(key: string, d: Deletion) returns (found: Result<bool, ()>)
      modifies this
      ensures found == match d
        case Answered => Ok(key in old(objects))
        case ReplyLost => Ok(false)
        case GivenUp(_) => Err(())
      ensures objects == if Removes(d) then old(objects) - {key} else old(objects)
    {
      found := if d.GivenUp? then Err(()) else Ok(d.Answered? && key in objects);
      if Removes(d) {
        objects := objects - {key};
      }
    }
  }

  /** Progress of a purge: objects counted as deleted, objects removed without being counted,
      objects left, deletion calls made, pages listed. */
  datatype Progress = Progress(deleted: nat, uncounted: nat, left: set<string>, calls: nat, pages: nat, failed: bool)

  function AfterDeletion(key: string, d: Deletion, p: Progress): Progress {
    var n := if key in p.left && Removes(d) then 1 else 0;
    p.(calls := p.calls + 1,
       left := if Removes(d) then p.left - {key} else p.left,
       deleted := p.deleted + if d.Answered? then n else 0,
       uncounted := p.uncounted + if d.Answered? then 0 else n,
       failed := p.failed || d.GivenUp?)
  }

  function DeletePage(keys: seq<string>, faults: Faults, p: Progress): Progress {
    if keys == [] then p
    else
      var q := AfterDeletion(keys[0], faults(p.calls), p);
      if faults(p.calls).GivenUp? then q else DeletePage(keys[1..], faults, q)
  }

  /** The pagination loop from a given cursor on. */
  ghost function PurgeFrom(listing: Listing, faults: Faults, cursors: set<string>,
                           cursor: Option<string>, seen: set<string>, p: Progress): Progress
    requires Bounded(listing, cursors)
    decreases cursors - seen
  {
    var page := listing(p.pages, cursor);
    var q := p.(pages := p.pages + 1);
    if page.None? then q.(failed := true)
    else if page.value.keys == [] && page.value.next.None? then q
    else
      var r := DeletePage(page.value.keys, faults, q);
      if r.failed || page.value.next.None? || page.value.next.value in seen then r
      else
        var next := page.value.next.value;
        assert next in cursors - seen && next !in cursors - (seen + {next});
        PurgeFrom(listing, faults, cursors, Some(next), seen + {next}, r)
  }

  ghost function Purged(listing: Listing, faults: Faults, cursors: set<string>, objects: set<string>): Progress
    requires Bounded(listing, cursors)
  {
    PurgeFrom(listing, faults, cursors, None, {}, Progress(0, 0, objects, 0, 0, false))
  }

  /** The inner loop: deletes the keys of one page until a call is given up. */
  method DeleteKeys(bucket: Bucket, keys: seq<string>, faults: Faults, deleted: nat, calls: nat,
      ghost uncounted: nat, ghost pages: nat)
      returns (ok: bool, deleted': nat, calls': nat, ghost uncounted': nat)
    modifies bucket
    ensures Progress(deleted', uncounted', bucket.objects, calls', pages, !ok)
         == DeletePage(keys, faults, Progress(deleted, uncounted, old(bucket.objects), calls, pages, false))
  {
    deleted', calls', uncounted' := deleted, calls, uncounted;
    ghost var final := DeletePage(keys, faults, Progress(deleted, uncounted, bucket.objects, calls, pages, false));
    for i := 0 to |keys|
      invariant DeletePage(keys[i..], faults, Progress(deleted', uncounted', bucket.objects, calls', pages, false))
             == final
    {
      assert keys[i..][1..] == keys[i + 1..];
      var d := faults(calls');
      calls' := calls' + 1;
      if !d.Answered? && Removes(d) && keys[i] in bucket.objects {
        uncounted' := uncounted' + 1;
      }
      var found := bucket.Delete(keys[i], d);
      if found.Err? {
        return false, deleted', calls', uncounted';
      }
      if found.value {
        deleted' := deleted' + 1;
      }
    }
    ok := true;
  }

  /** The loop itself. It ends against every server with finitely many cursors, because each
      round either stops or uses up a cursor not seen before. */
  method PurgeBucketObjects(bucket: Bucket, listing: Listing, faults: Faults, ghost cursors: set<string>)
      returns (result: Result<nat, ()>)
    requires Bounded(listing, cursors)
    modifies bucket
    ensures var p := Purged(listing, faults, cursors, old(bucket.objects));
      bucket.objects == p.left && result == if p.failed then Err(()) else Ok(p.deleted)
  {
    hide DeletePage;
    var totalDeleted := 0;
    var cursor: Option<string> := None;
    var seenCursors: set<string> := {};
    var pages, calls := 0, 0;
    ghost var uncounted := 0;
    ghost var final := Purged(listing, faults, cursors, bucket.objects);
    while true
      invariant PurgeFrom(listing, faults, cursors, cursor, seenCursors,
                          Progress(totalDeleted, uncounted, bucket.objects, calls, pages, false)) == final
      decreases cursors - seenCursors
    {
      var page := listing(pages, cursor);
      pages := pages + 1;
      if page.None? {
        return Err(());
      }
      var keys, next := page.value.keys, page.value.next;
      if keys == [] && next.None? {
        break;
      }
      FirstPageEmpty(keys, faults, Progress(totalDeleted, uncounted, bucket.objects, calls, pages, false));
      var ok;
      ok, totalDeleted, calls, uncounted := DeleteKeys(bucket, keys, faults, totalDeleted, calls, uncounted, pages);
      if !ok {
        return Err(());
      }
      if next.None? {
        break;
      }
      if next.value in seenCursors {
        break;
      }
      assert next.value in cursors - seenCursors && next.value !in cursors - (seenCursors + {next.value});
      seenCursors := seenCursors + {next.value};
      cursor := next;
    }
    return Ok(totalDeleted);
  }

  // ------------------------------------------------------------- conservation

  lemma DeletionConserves(key: string, d: Deletion, p: Progress)
    ensures var q := AfterDeletion(key, d, p);
      && q.deleted + q.uncounted + |q.left| == p.deleted + p.uncounted + |p.left|
      && q.left == (if Removes(d) then p.left - {key} else p.left)
      && (d.Answered? || d == GivenUp(false) ==> q.uncounted == p.uncounted)
  {
    if key in p.left {
      assert |p.left - {key}| == |p.left| - 1;
    } else {
      assert p.left - {key} == p.left;
    }
  }

  lemma {:induction false} DeletePageConserves(keys: seq<string>, faults: Faults, p: Progress)
    ensures var q := DeletePage(keys, faults, p);
      && q.deleted + q.uncounted + |q.left| == p.deleted + p.uncounted + |p.left|
      && q.left <= p.left
      && q.pages == p.pages
      && (!p.failed && !q.failed ==> q.left == p.left - set k | k in keys)
      && (NothingLost(faults) ==> q.uncounted == p.uncounted)
    decreases |keys|
  {
    if keys != [] {
      var d := faults(p.calls);
      DeletionConserves(keys[0], d, p);
      if !d.GivenUp? {
        DeletePageConserves(keys[1..], faults, AfterDeletion(keys[0], d, p));
        assert (set k | k in keys) == {keys[0]} + set k | k in keys[1..];
      }
    }
  }

  /** No call removes an object without saying so. */
  ghost predicate NothingLost(faults: Faults) {
    forall n: nat :: Tells(faults(n))
  }

  /** Every object that goes is counted once or was lost track of, even when pages repeat keys
      or the purge fails. */
  lemma {:induction false} PurgeConserves(listing: Listing, faults: Faults, cursors: set<string>,
                                          cursor: Option<string>, seen: set<string>, p: Progress)
    requires Bounded(listing, cursors)
    ensures var q := PurgeFrom(listing, faults, cursors, cursor, seen, p);
      && q.deleted + q.uncounted + |q.left| == p.deleted + p.uncounted + |p.left|
      && q.left <= p.left
      && (NothingLost(faults) ==> q.uncounted == p.uncounted)
    decreases cursors - seen
  {
    hide DeletePage;
    var page := listing(p.pages, cursor);
    var q := p.(pages := p.pages + 1);
    if page.Some? {
      FirstPageEmpty(page.value.keys, faults, q);
      DeletePageConserves(page.value.keys, faults, q);
      var r := DeletePage(page.value.keys, faults, q);
      if !r.failed && page.value.next.Some? && page.value.next.value !in seen {
        var next := page.value.next.value;
        assert next in cursors - seen && next !in cursors - (seen + {next});
        PurgeConserves(listing, faults, cursors, Some(next), seen + {next}, r);
      }
    }
  }

  // ------------------------------------------------------- when the count is right

  /** The keys the listing makes the loop delete, in order, if no deletion is given up. */
  ghost function ListedKeys(listing: Listing, cursors: set<string>, cursor: Option<string>, seen: set<string>, n: nat):
      seq<string>
    requires Bounded(listing, cursors)
    decreases cursors - seen
  {
    var page := listing(n, cursor);
    if page.None? then []
    else if page.value.next.None? || page.value.next.value in seen then page.value.keys
    else
      var next := page.value.next.value;
      assert next in cursors - seen && next !in cursors - (seen + {next});
      page.value.keys + ListedKeys(listing, cursors, Some(next), seen + {next}, n + 1)
  }

  predicate SameDeletions(p: Progress, q: Progress) {
    p.deleted == q.deleted && p.uncounted == q.uncounted && p.left == q.left && p.calls == q.calls
  }

  lemma {:induction false} DeletePageConcat(a: seq<string>, b: seq<string>, faults: Faults, p: Progress)
    requires !p.failed
    ensures var q := DeletePage(a, faults, p);
      DeletePage(a + b, faults, p) == if q.failed then q else DeletePage(b, faults, q)
    decreases |a|
  {
    if a == [] {
      assert a + b == b;
    } else {
      assert (a + b)[1..] == a[1..] + b;
      if !faults(p.calls).GivenUp? {
        DeletePageConcat(a[1..], b, faults, AfterDeletion(a[0], faults(p.calls), p));
      }
    }
  }

  /** Deleting does not depend on how many pages were listed. */
  lemma {:induction false} DeletePageOnAnyPage(keys: seq<string>, faults: Faults, p: Progress, n: nat)
    ensures DeletePage(keys, faults, p.(pages := n)) == DeletePage(keys, faults, p).(pages := n)
    decreases |keys|
  {
    if keys != [] && !faults(p.calls).GivenUp? {
      DeletePageOnAnyPage(keys[1..], faults, AfterDeletion(keys[0], faults(p.calls), p), n);
    }
  }

  /** The purge deletes what one sweep over all listed keys deletes. */
  lemma {:induction false} PurgeIsOneSweep(listing: Listing, faults: Faults, cursors: set<string>,
                                           cursor: Option<string>, seen: set<string>, p: Progress)
    requires Bounded(listing, cursors) && !p.failed
    ensures SameDeletions(PurgeFrom(listing, faults, cursors, cursor, seen, p),
                          DeletePage(ListedKeys(listing, cursors, cursor, seen, p.pages), faults, p))
    decreases cursors - seen
  {
    hide DeletePage;
    var page := listing(p.pages, cursor);
    var q := p.(pages := p.pages + 1);
    if page.None? {
      FirstPageEmpty([], faults, p);
    } else {
      var keys := page.value.keys;
      var r := DeletePage(keys, faults, q);
      FirstPageEmpty(keys, faults, q);
      FirstPageEmpty(keys, faults, p);
      DeletePageOnAnyPage(keys, faults, p, p.pages + 1);
      DeletePageConserves(keys, faults, q);
      if page.value.next.Some? && page.value.next.value !in seen {
        var next := page.value.next.value;
        assert next in cursors - seen && next !in cursors - (seen + {next});
        var rest := ListedKeys(listing, cursors, Some(next), seen + {next}, p.pages + 1);
        DeletePageConcat(keys, rest, faults, p);
        if !r.failed {
          PurgeIsOneSweep(listing, faults, cursors, Some(next), seen + {next}, r);
          DeletePageOnAnyPage(rest, faults, DeletePage(keys, faults, p), p.pages + 1);
        }
      }
    }
  }

  /** The n-th call is made, and it is the first for an object that is there. */
  predicate FirstDeletion(keys: seq<string>, objects: set<string>, faults: Faults, start: nat, n: nat)
    requires n < |keys|
  {
    keys[n] in objects && keys[n] !in keys[..n] &&
    forall m: nat :: start <= m < start + n ==> !faults(m).GivenUp?
  }

  /** The call says so if it removes an object. */
  predicate Tells(d: Deletion) {
    d.Answered? || d == GivenUp(false)
  }

  ghost predicate AllTold(keys: seq<string>, objects: set<string>, faults: Faults, start: nat) {
    forall n :: 0 <= n < |keys| && FirstDeletion(keys, objects, faults, start, n) ==> Tells(faults(start + n))
  }

  lemma FirstDeletionLater(keys: seq<string>, objects: set<string>, faults: Faults, start: nat, n: nat)
    requires n < |keys| - 1 && !faults(start).GivenUp?
    ensures FirstDeletion(keys, objects, faults, start, n + 1)
        <==> FirstDeletion(keys[1..], objects - {keys[0]}, faults, start + 1, n)
  {
    assert keys[..n + 1] == [keys[0]] + keys[1..][..n];
  }

  lemma AllToldStep(keys: seq<string>, objects: set<string>, faults: Faults, start: nat)
    requires keys != []
    ensures AllTold(keys, objects, faults, start) <==>
              (keys[0] in objects ==> Tells(faults(start))) &&
              (!faults(start).GivenUp? ==> AllTold(keys[1..], objects - {keys[0]}, faults, start + 1))
  {
    hide Tells;
    assert FirstDeletion(keys, objects, faults, start, 0) <==> keys[0] in objects;
    if AllTold(keys, objects, faults, start) && !faults(start).GivenUp? {
      var rest, left, next := keys[1..], objects - {keys[0]}, start + 1;
      forall n | 0 <= n < |rest| && FirstDeletion(rest, left, faults, next, n) ensures Tells(faults(next + n)) {
        FirstDeletionLater(keys, objects, faults, start, n);
        assert Tells(faults(start + (n + 1)));
      }
    }
    if (keys[0] in objects ==> Tells(faults(start))) &&
       (!faults(start).GivenUp? ==> AllTold(keys[1..], objects - {keys[0]}, faults, start + 1)) {
      forall n | 0 <= n < |keys| && FirstDeletion(keys, objects, faults, start, n) ensures Tells(faults(start + n)) {
        if n > 0 {
          assert !faults(start).GivenUp?;
          FirstDeletionLater(keys, objects, faults, start, n - 1);
          assert Tells(faults(start + 1 + (n - 1)));
        }
      }
    }
  }

  /** A sweep loses track of an object exactly when the first deletion of one does not tell. */
  lemma {:induction false} SweepLosesExactly(keys: seq<string>, faults: Faults, p: Progress)
    ensures p.uncounted <= DeletePage(keys, faults, p).uncounted
    ensures DeletePage(keys, faults, p).uncounted == p.uncounted <==> AllTold(keys, p.left, faults, p.calls)
    decreases |keys|
  {
    hide AllTold;
    if keys == [] {
      NothingToTell(p.left, faults, p.calls);
    } else {
      var q := AfterDeletion(keys[0], faults(p.calls), p);
      AllToldStep(keys, p.left, faults, p.calls);
      if !faults(p.calls).GivenUp? {
        SweepLosesExactly(keys[1..], faults, q);
      }
    }
  }

  lemma NothingToTell(objects: set<string>, faults: Faults, start: nat)
    ensures AllTold([], objects, faults, start)
  {
  }

  /** For every listing and every pattern of replies: objects before are objects counted and
      objects left, exactly when the first deletion of each object that is reached tells whether
      it removed it. */
  lemma PurgeCountsExactly(listing: Listing, faults: Faults, cursors: set<string>, objects: set<string>)
    requires Bounded(listing, cursors)
    ensures var q, keys := Purged(listing, faults, cursors, objects), ListedKeys(listing, cursors, None, {}, 0);
      |objects| == q.deleted + |q.left| <==>
        forall n :: 0 <= n < |keys| && FirstDeletion(keys, objects, faults, 0, n) ==> Tells(faults(n))
  {
    hide DeletePage, FirstDeletion, Tells;
    var start, keys := Progress(0, 0, objects, 0, 0, false), ListedKeys(listing, cursors, None, {}, 0);
    PurgeConserves(listing, faults, cursors, None, {}, start);
    PurgeIsOneSweep(listing, faults, cursors, None, {}, start);
    SweepLosesExactly(keys, faults, start);
    assert AllTold(keys, objects, faults, 0) <==>
      forall n :: 0 <= n < |keys| && FirstDeletion(keys, objects, faults, 0, n) ==> Tells(faults(0 + n));
  }

  // ------------------------------------------------------- when it is a failure

  /** Following the cursors, the listing answers an error before it comes to an end. */
  ghost predicate ListingFails(listing: Listing, cursors: set<string>,
      cursor: Option<string>, seen: set<string>, n: nat)
    requires Bounded(listing, cursors)
    decreases cursors - seen
  {
    var page := listing(n, cursor);
    if page.None? then true
    else if page.value.next.None? || page.value.next.value in seen then false
    else
      var next := page.value.next.value;
      assert next in cursors - seen && next !in cursors - (seen + {next});
      ListingFails(listing, cursors, Some(next), seen + {next}, n + 1)
  }

  /** These pages come first, each with a new cursor, and then the listing answers an error. */
  ghost predicate BreaksAfter(listing: Listing, n: nat, cursor: Option<string>, seen: set<string>, pages: seq<Page>)
    decreases |pages|
  {
    if pages == [] then listing(n, cursor).None?
    else
      && listing(n, cursor) == Some(pages[0]) && pages[0].next.Some? && pages[0].next.value !in seen
      && BreaksAfter(listing, n + 1, pages[0].next, seen + {pages[0].next.value}, pages[1..])
  }

  ghost predicate ListingBreaks(listing: Listing, n: nat, cursor: Option<string>, seen: set<string>) {
    exists pages :: BreaksAfter(listing, n, cursor, seen, pages)
  }

  lemma {:induction false} BreaksMeansFails(listing: Listing, cursors: set<string>, cursor: Option<string>,
                                            seen: set<string>, n: nat, pages: seq<Page>)
    requires Bounded(listing, cursors) && BreaksAfter(listing, n, cursor, seen, pages)
    ensures ListingFails(listing, cursors, cursor, seen, n)
    decreases |pages|
  {
    if pages != [] {
      var next := pages[0].next.value;
      assert next in cursors;
      BreaksMeansFails(listing, cursors, Some(next), seen + {next}, n + 1, pages[1..]);
    }
  }

  lemma {:induction false} FailsMeansBreaks(listing: Listing, cursors: set<string>, cursor: Option<string>,
                                            seen: set<string>, n: nat) returns (pages: seq<Page>)
    requires Bounded(listing, cursors) && ListingFails(listing, cursors, cursor, seen, n)
    ensures BreaksAfter(listing, n, cursor, seen, pages)
    decreases cursors - seen
  {
    var page := listing(n, cursor);
    if page.None? {
      pages := [];
    } else {
      var next := page.value.next.value;
      assert next in cursors - seen && next !in cursors - (seen + {next});
      var rest := FailsMeansBreaks(listing, cursors, Some(next), seen + {next}, n + 1);
      pages := [page.value] + rest;
      assert pages[1..] == rest;
    }
  }

  lemma FailsExactlyWhenItBreaks(listing: Listing, cursors: set<string>,
      cursor: Option<string>, seen: set<string>, n: nat)
    requires Bounded(listing, cursors)
    ensures ListingFails(listing, cursors, cursor, seen, n) <==> ListingBreaks(listing, n, cursor, seen)
  {
    if ListingFails(listing, cursors, cursor, seen, n) {
      var pages := FailsMeansBreaks(listing, cursors, cursor, seen, n);
    }
    if ListingBreaks(listing, n, cursor, seen) {
      var pages :| BreaksAfter(listing, n, cursor, seen, pages);
      BreaksMeansFails(listing, cursors, cursor, seen, n, pages);
    }
  }

  lemma {:induction false} SweepFailsExactly(keys: seq<string>, faults: Faults, p: Progress)
    requires !p.failed
    ensures DeletePage(keys, faults, p).failed <==> exists n :: p.calls <= n < p.calls + |keys| && faults(n).GivenUp?
    ensures !DeletePage(keys, faults, p).failed ==> DeletePage(keys, faults, p).calls == p.calls + |keys|
    decreases |keys|
  {
    if keys != [] {
      var q := AfterDeletion(keys[0], faults(p.calls), p);
      if !faults(p.calls).GivenUp? {
        SweepFailsExactly(keys[1..], faults, q);
      }
    }
  }

  lemma {:induction false} PurgeFromFails(listing: Listing, faults: Faults, cursors: set<string>,
                                          cursor: Option<string>, seen: set<string>, p: Progress)
    requires Bounded(listing, cursors) && !p.failed
    ensures PurgeFrom(listing, faults, cursors, cursor, seen, p).failed <==>
              DeletePage(ListedKeys(listing, cursors, cursor, seen, p.pages), faults, p).failed ||
              ListingFails(listing, cursors, cursor, seen, p.pages)
    decreases cursors - seen
  {
    hide DeletePage;
    var page := listing(p.pages, cursor);
    var q := p.(pages := p.pages + 1);
    if page.Some? {
      var keys := page.value.keys;
      var r := DeletePage(keys, faults, q);
      FirstPageEmpty(keys, faults, q);
      FirstPageEmpty(keys, faults, p);
      DeletePageOnAnyPage(keys, faults, p, p.pages + 1);
      DeletePageConserves(keys, faults, q);
      if page.value.next.Some? && page.value.next.value !in seen {
        var next := page.value.next.value;
        assert next in cursors - seen && next !in cursors - (seen + {next});
        var rest := ListedKeys(listing, cursors, Some(next), seen + {next}, p.pages + 1);
        DeletePageConcat(keys, rest, faults, p);
        if !r.failed {
          PurgeFromFails(listing, faults, cursors, Some(next), seen + {next}, r);
          DeletePageOnAnyPage(rest, faults, DeletePage(keys, faults, p), p.pages + 1);
        }
      }
    }
  }

  /** A purge is reported as failed exactly when the listing, followed along new cursors, answers
      an error, or the deletion of a listed key is given up; a repeated cursor is no failure. */
  lemma PurgeFailsExactly(listing: Listing, faults: Faults, cursors: set<string>, objects: set<string>)
    requires Bounded(listing, cursors)
    ensures Purged(listing, faults, cursors, objects).failed <==>
              ListingBreaks(listing, 0, None, {}) ||
              (exists n: nat :: n < |ListedKeys(listing, cursors, None, {}, 0)| && faults(n).GivenUp?)
  {
    hide DeletePage, ListedKeys, ListingFails, ListingBreaks;
    var start := Progress(0, 0, objects, 0, 0, false);
    PurgeFromFails(listing, faults, cursors, None, {}, start);
    FailsExactlyWhenItBreaks(listing, cursors, None, {}, 0);
    SweepFailsExactly(ListedKeys(listing, cursors, None, {}, 0), faults, start);
  }

  /** Counted, lost track of, and left add up; nothing is lost track of when every call tells. */
  lemma PurgeCountsDeletions(listing: Listing, faults: Faults, cursors: set<string>, objects: set<string>)
    requires Bounded(listing, cursors)
    ensures var q := Purged(listing, faults, cursors, objects);
      && q.left <= objects
      && |objects| == q.deleted + q.uncounted + |q.left|
      && (NothingLost(faults) ==> q.uncounted == 0)
  {
    PurgeConserves(listing, faults, cursors, None, {}, Progress(0, 0, objects, 0, 0, false));
  }

  /** A bucket of one object is emptied and reported as nothing deleted when the reply to the
      deletion is lost and the retry finds no object. */
  lemma LostReplyIsNotCounted(key: string)
    ensures var q := Purged((n, c) => Some(Page([key], None)), n => ReplyLost, {}, {key});
      !q.failed && q.left == {} && q.deleted == 0
  {
    var listing: Listing := (n, c) => Some(Page([key], None));
    var faults: Faults := n => ReplyLost;
    var start := Progress(0, 0, {key}, 0, 1, false);
    assert [key][1..] == [];
    assert DeletePage([key], faults, start) == AfterDeletion(key, ReplyLost, start);
  }

  // ------------------------------------------------------------- completeness

  /** From call `n` on, the server answers with these pages, linked by cursors that are
      neither repeated nor in `seen`, and the last page has no cursor. */
  ghost predicate Enumerates(listing: Listing, n: nat, cursor: Option<string>, seen: set<string>, pages: seq<Page>)
    decreases |pages|
  {
    pages != [] && listing(n, cursor) == Some(pages[0]) &&
    if |pages| == 1 then pages[0].next.None?
    else pages[0].next.Some? && pages[0].next.value !in seen &&
         Enumerates(listing, n + 1, pages[0].next, seen + {pages[0].next.value}, pages[1..])
  }

  function Keys(pages: seq<Page>): set<string> {
    if pages == [] then {} else (set k | k in pages[0].keys) + Keys(pages[1..])
  }

  lemma {:induction false} DeletePageNeverFails(keys: seq<string>, faults: Faults, p: Progress)
    requires !p.failed && forall n: nat :: !faults(n).GivenUp?
    ensures !DeletePage(keys, faults, p).failed
    decreases |keys|
  {
    if keys != [] {
      DeletePageNeverFails(keys[1..], faults, AfterDeletion(keys[0], faults(p.calls), p));
    }
  }

  /** An honest listing is followed to its end, and exactly the listed keys are removed. */
  lemma {:induction false} PurgeFollowsListing(listing: Listing, faults: Faults, cursors: set<string>,
                                               cursor: Option<string>, seen: set<string>, p: Progress, pages: seq<Page>)
    requires Bounded(listing, cursors)
    requires !p.failed && forall n: nat :: !faults(n).GivenUp?
    requires Enumerates(listing, p.pages, cursor, seen, pages)
    ensures var q := PurgeFrom(listing, faults, cursors, cursor, seen, p);
      !q.failed && q.left == p.left - Keys(pages) && q.pages == p.pages + |pages|
    decreases |pages|
  {
    hide Keys, DeletePage;
    var q := p.(pages := p.pages + 1);
    var r := DeletePage(pages[0].keys, faults, q);
    DeletePageNeverFails(pages[0].keys, faults, q);
    DeletePageConserves(pages[0].keys, faults, q);
    FirstPageEmpty(pages[0].keys, faults, q);
    KeysOfFirst(pages);
    if |pages| > 1 {
      var next := pages[0].next.value;
      assert next in cursors;
      assert PurgeFrom(listing, faults, cursors, cursor, seen, p)
          == PurgeFrom(listing, faults, cursors, Some(next), seen + {next}, r);
      PurgeFollowsListing(listing, faults, cursors, Some(next), seen + {next}, r, pages[1..]);
    } else {
      assert PurgeFrom(listing, faults, cursors, cursor, seen, p) == r;
    }
  }

  lemma FirstPageEmpty(keys: seq<string>, faults: Faults, p: Progress)
    ensures keys == [] ==> DeletePage(keys, faults, p) == p
  {
  }

  lemma KeysOfFirst(pages: seq<Page>)
    requires pages != []
    ensures Keys(pages) == (set k | k in pages[0].keys) + Keys(pages[1..])
    ensures |pages| == 1 ==> Keys(pages[1..]) == {}
  {
  }

  /** A listing that covers the bucket leaves it empty, and counts it all exactly when the first
      deletion of each object tells. */
  lemma CompleteListingEmptiesBucket(listing: Listing, faults: Faults,
      cursors: set<string>, objects: set<string>, pages: seq<Page>)
    requires Bounded(listing, cursors)
    requires forall n: nat :: !faults(n).GivenUp?
    requires Enumerates(listing, 0, None, {}, pages)
    ensures var q := Purged(listing, faults, cursors, objects);
      && !q.failed && (q.left == {} <==> objects <= Keys(pages))
      && (q.deleted + q.uncounted == |objects| <==> objects <= Keys(pages))
      && (q.deleted == |objects| <==>
            objects <= Keys(pages) && AllTold(ListedKeys(listing, cursors, None, {}, 0), objects, faults, 0))
      && (NothingLost(faults) ==> (q.deleted == |objects| <==> objects <= Keys(pages)))
  {
    PurgeFollowsListing(listing, faults, cursors, None, {}, Progress(0, 0, objects, 0, 0, false), pages);
    PurgeCountsDeletions(listing, faults, cursors, objects);
    PurgeCountsExactly(listing, faults, cursors, objects);
    var q := Purged(listing, faults, cursors, objects);
    assert AllTold(ListedKeys(listing, cursors, None, {}, 0), objects, faults, 0) <==>
           |objects| == q.deleted + |q.left|;
    if q.left == {} {
      forall o | o in objects ensures o in Keys(pages) { assert o !in q.left; }
    }
  }
}
