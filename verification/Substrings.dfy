/** for_each_substring (lib/src/utils/file.cc) and the mount category it decides
    (lib/src/linux/filesystem_extractor.cc). */
module Substrings {
  import opened Text

  /** Some nonempty contiguous part of s satisfies p. */
  ghost predicate SomePart(s: string, p: string -> bool) {
    exists i, j | 0 <= i < j <= |s| :: p(s[i..j])
  }

  // ---------------------------------------------------------------- the order of the search

  /** A part of a string, from one position to another. */
  datatype Part = Part(start: nat, end: nat)

  function Cut(s: string, part: Part): string {
    if part.start <= part.end <= |s| then s[part.start..part.end] else []
  }

  /** The first k parts that start at i, the shortest first. */
  function Row(i: nat, k: nat): seq<Part> {
    seq(k, j requires 0 <= j < k => Part(i, i + 1 + j))
  }

  /** All parts of a string of length n that start before i, by start and then by end. */
  function Rows(n: nat, i: nat): seq<Part>
    requires i <= n
  {
    if i == 0 then [] else Rows(n, i - 1) + Row(i - 1, n - (i - 1))
  }

  predicate Before(a: Part, b: Part) {
    a.start < b.start || (a.start == b.start && a.end < b.end)
  }

  lemma RowsAre(n: nat, i: nat, part: Part)
    requires i <= n
    ensures part in Rows(n, i) <==> part.start < part.end <= n && part.start < i
  {
    if i > 0 {
      RowsAre(n, i - 1, part);
      if part.start == i - 1 && part.start < part.end <= n {
        assert part == Row(i - 1, n - (i - 1))[part.end - i];
      }
    }
  }

  lemma RowsAscend(n: nat, i: nat)
    requires i <= n
    ensures forall k, l | 0 <= k < l < |Rows(n, i)| :: Before(Rows(n, i)[k], Rows(n, i)[l])
  {
    if i > 0 {
      RowsAscend(n, i - 1);
      var above := Rows(n, i - 1);
      forall k | 0 <= k < |above| ensures above[k].start < i - 1 {
        RowsAre(n, i - 1, above[k]);
      }
    }
  }

  lemma {:induction false} RowsCount(n: nat, i: nat)
    requires i <= n
    ensures 2 * |Rows(n, i)| == i * (2 * n - i + 1)
  {
    if i > 0 {
      RowsCount(n, i - 1);
    }
  }

  /** There are n(n+1)/2 parts, each comes once, and they are all the ranges of positions. */
  lemma AllParts(n: nat)
    ensures |Rows(n, n)| == n * (n + 1) / 2
    ensures forall k, l | 0 <= k < l < |Rows(n, n)| :: Before(Rows(n, n)[k], Rows(n, n)[l])
    ensures forall part :: part in Rows(n, n) <==> part.start < part.end <= n
  {
    RowsCount(n, n);
    RowsAscend(n, n);
    forall part ensures part in Rows(n, n) <==> part.start < part.end <= n {
      RowsAre(n, n, part);
    }
  }

  // ---------------------------------------------------------------- the search

  predicate AllFail(s: string, p: string -> bool, parts: seq<Part>) {
    forall part | part in parts :: !p(Cut(s, part))
  }

  /** The predicate was called on these parts in this order, and this came out: a failed search has
      tried every part, a successful one stops at the first part that satisfies the predicate. */
  predicate Searched(s: string, p: string -> bool, calls: seq<Part>, found: bool) {
    if found
    then calls != [] && calls <= Rows(|s|, |s|) && p(Cut(s, calls[|calls| - 1])) && AllFail(s, p, calls[..|calls| - 1])
    else calls == Rows(|s|, |s|) && AllFail(s, p, calls)
  }

  lemma {:induction false} RowsPrefix(n: nat, i: nat, k: nat)
    requires i < n && k <= n - i
    ensures Rows(n, i) + Row(i, k) <= Rows(n, n)
    decreases n - i
  {
    assert Row(i, k) <= Row(i, n - i);
    assert Rows(n, i) + Row(i, k) <= Rows(n, i + 1);
    if i + 1 < n {
      RowsPrefix(n, i + 1, 0);
      assert Rows(n, i + 1) + Row(i + 1, 0) == Rows(n, i + 1);
    }
  }

  lemma RowMore(above: seq<Part>, i: nat, k: nat)
    ensures above + Row(i, k + 1) == above + Row(i, k) + [Part(i, i + 1 + k)]
  {
    assert Row(i, k + 1) == Row(i, k) + [Part(i, i + 1 + k)];
  }

  method ForEachSubstring(s: string, p: string -> bool) returns (found: bool, ghost calls: seq<Part>)
    ensures found <==> SomePart(s, p)
    ensures Searched(s, p, calls, found)
    ensures |calls| <= |s| * (|s| + 1) / 2 && (!found ==> |calls| == |s| * (|s| + 1) / 2)
  {
    calls := [];
    var start := 0;
    while start < |s|
      invariant start <= |s|
      invariant calls == Rows(|s|, start) && AllFail(s, p, calls)
    {
      var end := start + 1;
      while end <= |s|
        invariant start < end <= |s| + 1
        invariant calls == Rows(|s|, start) + Row(start, end - start - 1) && AllFail(s, p, calls)
      {
        RowMore(Rows(|s|, start), start, end - start - 1);
        RowsPrefix(|s|, start, end - start);
        calls := calls + [Part(start, end)];
        if p(s[start..end]) {
          SearchSound(s, p, calls, true);
          return true, calls;
        }
        end := end + 1;
      }
      start := start + 1;
    }
    SearchSound(s, p, calls, false);
    return false, calls;
  }

  lemma SearchSound(s: string, p: string -> bool, calls: seq<Part>, found: bool)
    requires Searched(s, p, calls, found)
    ensures found <==> SomePart(s, p)
    ensures |calls| <= |s| * (|s| + 1) / 2 && (!found ==> |calls| == |s| * (|s| + 1) / 2)
  {
    AllParts(|s|);
    if found {
      var part := calls[|calls| - 1];
      assert part == Rows(|s|, |s|)[|calls| - 1];
      assert p(s[part.start..part.end]);
    } else {
      forall i, j | 0 <= i < j <= |s| ensures !p(s[i..j]) {
        assert Part(i, j) in calls;
        assert Cut(s, Part(i, j)) == s[i..j];
      }
    }
  }

  // ---------------------------------------------------------------- monotonicity

  /** A part found in s is found in every string around s. */
  lemma SomePartGrows(before: string, s: string, after: string, p: string -> bool)
    requires SomePart(s, p)
    ensures SomePart(before + s + after, p)
  {
    var i, j :| 0 <= i < j <= |s| && p(s[i..j]);
    var all := before + s + after;
    assert all[|before| + i..|before| + j] == s[i..j];
  }

  /** Some part that spans the joint of two strings satisfies p. */
  ghost predicate SomeAcross(a: string, b: string, p: string -> bool) {
    exists i, j | 0 <= i < |a| && 0 < j <= |b| :: p(a[i..] + b[..j])
  }

  lemma CutAcross(a: string, b: string, i: nat, j: nat)
    requires i < |a| && 0 < j <= |b|
    ensures (a + b)[i..|a| + j] == a[i..] + b[..j]
  {
  }

  lemma CutInside(a: string, b: string, i: nat, j: nat)
    requires i < j <= |a + b|
    ensures j <= |a| ==> (a + b)[i..j] == a[i..j]
    ensures |a| <= i ==> (a + b)[i..j] == b[i - |a|..j - |a|]
  {
  }

  lemma PartOfConcat(a: string, b: string, p: string -> bool, i: nat, j: nat)
    requires i < j <= |a + b| && p((a + b)[i..j])
    ensures SomePart(a, p) || SomePart(b, p) || SomeAcross(a, b, p)
  {
    CutInside(a, b, i, j);
    if j <= |a| {
      assert p(a[i..j]);
    } else if |a| <= i {
      assert p(b[i - |a|..j - |a|]);
    } else {
      CutAcross(a, b, i, j - |a|);
      assert p(a[i..] + b[..j - |a|]);
    }
  }

  /** Joining two strings adds exactly the parts across the joint. */
  lemma SomePartOfConcat(a: string, b: string, p: string -> bool)
    ensures SomePart(a + b, p) <==> SomePart(a, p) || SomePart(b, p) || SomeAcross(a, b, p)
  {
    if SomePart(a, p) {
      SomePartGrows([], a, b, p);
      assert [] + a + b == a + b;
    }
    if SomePart(b, p) {
      SomePartGrows(a, b, [], p);
      assert a + b + [] == a + b;
    }
    if SomeAcross(a, b, p) {
      var i, j :| 0 <= i < |a| && 0 < j <= |b| && p(a[i..] + b[..j]);
      CutAcross(a, b, i, j);
      assert p((a + b)[i..|a| + j]);
    }
    if SomePart(a + b, p) {
      var i, j :| 0 <= i < j <= |a + b| && p((a + b)[i..j]);
      PartOfConcat(a, b, p, i, j);
    }
  }

  // ---------------------------------------------------------------- mount points

  datatype Category = Local | Remote | Misc

  const DEV := "/dev/"

  /** The category of a device; isIp is utils::network::is_ip. */
  ghost function CategoryOf(device: string, isIp: string -> bool): Category {
    if DEV <= device then Local else if SomePart(device, isIp) then Remote else Misc
  }

  method Categorise(device: string, isIp: string -> bool) returns (category: Category)
    ensures category == CategoryOf(device, isIp)
    ensures category.Local? <==> "/dev/" <= device
    ensures category.Remote? <==> !("/dev/" <= device) && exists i, j | 0 <= i < j <= |device| :: isIp(device[i..j])
    ensures category.Misc? <==> !("/dev/" <= device) && forall i, j | 0 <= i < j <= |device| :: !isIp(device[i..j])
  {
    if DEV <= device {
      return Local;
    }
    category := Misc;
    var found, _ := ForEachSubstring(device, isIp);
    if found {
      category := Remote;
    }
  }

  /** Whatever is put around the name of a remote device, it never becomes MISC, and it becomes
      LOCAL only when the new name begins with "/dev/". */
  lemma RemoteStays(before: string, device: string, after: string, isIp: string -> bool)
    requires CategoryOf(device, isIp).Remote?
    ensures var longer := before + device + after;
            CategoryOf(longer, isIp) == if DEV <= longer then Local else Remote
  {
    SomePartGrows(before, device, after, isIp);
  }
}
