/** `jobs.sort(key=lambda x: x[3])`: a stable sort of the sized jobs by
    ascending prefix length, so larger blocks are placed first and jobs of
    equal prefix keep their demand order. */
module Ordering {
  import opened Jobs

  predicate SortedByPrefix(js: seq<Job>) {
    forall i, j :: 0 <= i < j < |js| ==> js[i].prefix <= js[j].prefix
  }

  /** The jobs of prefix length k, in the order they appear. */
  function WithPrefix(js: seq<Job>, k: int): seq<Job>
    decreases |js|
  {
    if |js| == 0 then []
    else
      var last := js[|js| - 1];
      WithPrefix(js[..|js| - 1], k) + (if last.prefix == k then [last] else [])
  }

  /** Inserts x right after the last job whose prefix is at most its own,
      ahead of the trailing jobs with a longer prefix. */
  function Insert(js: seq<Job>, x: Job): (r: seq<Job>)
    ensures multiset(r) == multiset(js) + multiset{x}
    decreases |js|
  {
    if |js| == 0 || js[|js| - 1].prefix <= x.prefix then js + [x]
    else
      var init, last := js[..|js| - 1], js[|js| - 1];
      assert js == init + [last];
      Insert(init, x) + [last]
  }

  lemma {:induction false} InsertKeepsSorted(js: seq<Job>, x: Job)
    requires SortedByPrefix(js)
    ensures SortedByPrefix(Insert(js, x))
    decreases |js|
  {
    if |js| > 0 && js[|js| - 1].prefix > x.prefix {
      var init, last := js[..|js| - 1], js[|js| - 1];
      assert forall i :: 0 <= i < |init| ==> init[i] == js[i];
      InsertKeepsSorted(init, x);
      InsertStaysBelow(init, x, last.prefix);
      SortedSnoc(Insert(init, x), last);
    }
  }

  /** Inserting a job below a bound keeps every job below it. */
  lemma InsertStaysBelow(js: seq<Job>, x: Job, bound: int)
    requires forall i :: 0 <= i < |js| ==> js[i].prefix <= bound
    requires x.prefix <= bound
    ensures forall i :: 0 <= i < |Insert(js, x)| ==> Insert(js, x)[i].prefix <= bound
  {
    var r := Insert(js, x);
    forall i | 0 <= i < |r|
      ensures r[i].prefix <= bound
    {
      assert r[i] in multiset(r);
      if r[i] != x {
        assert r[i] in multiset(js);
      }
    }
  }

  /** A sorted sequence stays sorted when a job no shorter than all of it is appended. */
  lemma SortedSnoc(js: seq<Job>, last: Job)
    requires SortedByPrefix(js)
    requires forall i :: 0 <= i < |js| ==> js[i].prefix <= last.prefix
    ensures SortedByPrefix(js + [last])
  {
  }

  /** Inserting x appends it to the jobs of its own prefix length and leaves
      the jobs of every other length as they were. */
  lemma {:induction false} InsertKeepsOrder(js: seq<Job>, x: Job, k: int)
    ensures WithPrefix(Insert(js, x), k) == WithPrefix(js, k) + (if x.prefix == k then [x] else [])
    decreases |js|
  {
    var r := Insert(js, x);
    if |js| == 0 || js[|js| - 1].prefix <= x.prefix {
      assert r[..|r| - 1] == js;
    } else {
      var init, last := js[..|js| - 1], js[|js| - 1];
      InsertKeepsOrder(init, x, k);
      var rest := Insert(init, x);
      assert r[..|r| - 1] == rest;
      assert WithPrefix(js, k) == WithPrefix(init, k) + (if last.prefix == k then [last] else []);
    }
  }

  /** The stable sort: every job of the input, ascending by prefix length, and
      for every prefix length the jobs of that length in their input order. */
  function SortByPrefix(js: seq<Job>): (r: seq<Job>)
    ensures SortedByPrefix(r)
    ensures multiset(r) == multiset(js)
    ensures forall k :: WithPrefix(r, k) == WithPrefix(js, k)
    decreases |js|
  {
    if |js| == 0 then []
    else
      var init, last := js[..|js| - 1], js[|js| - 1];
      assert js == init + [last];
      var sorted := SortByPrefix(init);
      InsertKeepsSorted(sorted, last);
      forall k ensures WithPrefix(Insert(sorted, last), k) == WithPrefix(js, k) {
        InsertKeepsOrder(sorted, last, k);
      }
      Insert(sorted, last)
  }
}
