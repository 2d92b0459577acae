/**
 Cookies order requests after file events: a request carries the serial of a cookie file and is only
 handled once the creation of that file, or of a later one, has come out of the event stream.
 */
module Cookies {
  import opened Basics

  datatype Cookied<T> = Cookied(request: T, serial: nat)

  /** The heap of waiting requests is a bag from which the smallest serial is taken first. */
  datatype Watcher<T(==)> = Watcher(latest: nat, pending: multiset<Cookied<T>>)

  /** Requests wait only for cookies that have not been seen. */
  ghost predicate Waiting<T>(w: Watcher<T>) {
    forall r :: r in w.pending ==> r.serial > w.latest
  }

  ghost predicate Ascending<T>(batch: seq<Cookied<T>>) {
    forall i, j :: 0 <= i < j < |batch| ==> batch[i].serial <= batch[j].serial
  }

  /** `batch` is what the cookie `serial` releases: everything due, smallest serial first, and nothing else. */
  ghost predicate Releases<T>(w: Watcher<T>, serial: nat, batch: seq<Cookied<T>>, w': Watcher<T>) {
    && w'.latest == serial
    && multiset(batch) + w'.pending == w.pending
    && (forall i :: 0 <= i < |batch| ==> batch[i].serial <= serial)
    && (forall r :: r in w'.pending ==> r.serial > serial)
    && Ascending(batch)
  }

  /** Two batches released from the same state hold the same requests. */
  lemma ReleaseIsDetermined<T>(w: Watcher<T>, serial: nat, a: seq<Cookied<T>>, wa: Watcher<T>, b: seq<Cookied<T>>,
      wb: Watcher<T>)
    requires Releases(w, serial, a, wa) && Releases(w, serial, b, wb)
    ensures wa == wb && multiset(a) == multiset(b)
  {
    forall r
      ensures multiset(a)[r] == multiset(b)[r] && wa.pending[r] == wb.pending[r]
    {
      assert multiset(a)[r] + wa.pending[r] == w.pending[r] == multiset(b)[r] + wb.pending[r];
      if r in multiset(a) { assert r in a; }
      if r in multiset(b) { assert r in b; }
    }
    assert wa.pending == wb.pending;
  }

  class CookieWatcher<T(==)> {
    var latest: nat
    var pending: multiset<Cookied<T>>

    ghost function View(): Watcher<T>
      reads this
    {
      Watcher(latest, pending)
    }

    constructor ()
      ensures View() == Watcher(0, multiset{}) && Waiting(View())
    {
      latest, pending := 0, multiset{};
    }

    /** Hand a request back if its cookie was seen, else hold it. */
    method CheckRequest(r: Cookied<T>) returns (now: Option<T>)
      modifies this
      ensures latest == old(latest)
      ensures r.serial <= latest ==> now == Some(r.request) && pending == old(pending)
      ensures r.serial > latest ==> now == None && pending == old(pending) + multiset{r}
      ensures old(Waiting(View())) ==> Waiting(View())
    {
      if r.serial <= latest {
        now := Some(r.request);
      } else {
        pending := pending + multiset{r};
        now := None;
      }
    }

    /** Take the waiting request with the smallest serial. */
    method Pop() returns (r: Cookied<T>)
      requires pending != multiset{}
      modifies this`pending
      ensures r in old(pending) && pending == old(pending) - multiset{r}
      ensures forall q :: q in old(pending) ==> r.serial <= q.serial
    {
      r := Smallest(pending);
      pending := pending - multiset{r};
    }

    /** The cookie `serial` was created: release what is due. The first request that is not goes back. */
    method PopReadyRequests(serial: nat) returns (batch: seq<Cookied<T>>)
      modifies this
      ensures Releases(old(View()), serial, batch, View()) && Waiting(View())
    {
      latest := serial;
      batch := [];
      ghost var all := pending;
      while pending != multiset{}
        invariant latest == serial && Due(batch, pending, all, serial)
        decreases |pending|
      {
        ghost var before := pending;
        var r := Pop();
        assert before == pending + multiset{r};
        if r.serial <= serial {
          OneMoreDue(batch, before, all, serial, r);
          batch := batch + [r];
        } else {
          pending := pending + multiset{r};
          break;
        }
      }
    }
  }

  /** Part-way through a release: `batch` came out of `all` smallest first, `rest` is still inside. */
  ghost predicate Due<T>(batch: seq<Cookied<T>>, rest: multiset<Cookied<T>>, all: multiset<Cookied<T>>, serial: nat) {
    && multiset(batch) + rest == all
    && (forall i :: 0 <= i < |batch| ==> batch[i].serial <= serial)
    && (forall i, r :: 0 <= i < |batch| && r in rest ==> batch[i].serial <= r.serial)
    && Ascending(batch)
  }

  /** The request with the smallest serial: what the heap keeps at its top. */
  method Smallest<T(==)>(requests: multiset<Cookied<T>>) returns (r: Cookied<T>)
    requires requests != multiset{}
    ensures r in requests && forall q :: q in requests ==> r.serial <= q.serial
  {
    r :| r in requests;
    var rest := requests - multiset{r};
    while rest != multiset{}
      invariant rest <= requests && r in requests
      invariant NoneSmaller(requests, rest, r.serial)
      decreases |rest|
    {
      var q :| q in rest;
      OneMoreSeen(requests, rest, q, r.serial);
      if q.serial < r.serial { r := q; }
      rest := rest - multiset{q};
    }
    assert requests - rest == requests;
  }

  ghost predicate NoneSmaller<T>(requests: multiset<Cookied<T>>, rest: multiset<Cookied<T>>, serial: nat) {
    forall q :: q in requests - rest ==> serial <= q.serial
  }

  lemma OneMoreSeen<T>(requests: multiset<Cookied<T>>, rest: multiset<Cookied<T>>, q: Cookied<T>, serial: nat)
    requires rest <= requests && q in rest && NoneSmaller(requests, rest, serial)
    ensures NoneSmaller(requests, rest - multiset{q}, if q.serial < serial then q.serial else serial)
  {
    forall x | x in requests - (rest - multiset{q})
      ensures (if q.serial < serial then q.serial else serial) <= x.serial
    {
      assert x == q || x in requests - rest;
    }
  }

  lemma OneMoreDue<T>(batch: seq<Cookied<T>>, rest: multiset<Cookied<T>>, all: multiset<Cookied<T>>, serial: nat,
      r: Cookied<T>)
    requires Due(batch, rest, all, serial) && r in rest && r.serial <= serial
    requires forall q :: q in rest ==> r.serial <= q.serial
    ensures Due(batch + [r], rest - multiset{r}, all, serial)
  {
    assert multiset(batch + [r]) == multiset(batch) + multiset{r};
    assert multiset(batch + [r]) + (rest - multiset{r}) == all;
  }
}
