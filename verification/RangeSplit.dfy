// How a file is cut into one range per data source.
module RangeSplit {
  import opened Tables

  function Min(a: int, b: int): int
  {
    if a < b then a else b
  }

  // Part i of n: the first size % n parts are one byte longer than the others.
  function PartLen(size: nat, n: nat, i: nat): nat
    requires n > 0
  {
    size / n + if i < size % n then 1 else 0
  }

  function PartStart(size: nat, n: nat, i: nat): nat
    requires n > 0
  {
    i * (size / n) + Min(i, size % n)
  }

  lemma PartLenIs(size: nat, n: nat, i: nat)
    requires n > 0
    ensures PartLen(size, n, i) == size / n + if i < size % n then 1 else 0
  {
  }

  // The ranges tile [0, size) in order.
  lemma PartsTile(size: nat, n: nat, i: nat)
    requires i < n
    ensures PartStart(size, n, 0) == 0
    ensures PartStart(size, n, i + 1) == PartStart(size, n, i) + PartLen(size, n, i)
    ensures PartStart(size, n, n) == size
  {
    assert (i + 1) * (size / n) == i * (size / n) + size / n;
    assert size == n * (size / n) + size % n;
  }

  lemma {:induction false} PartStartIsMonotone(size: nat, n: nat, i: nat, j: nat)
    requires i <= j <= n && n > 0
    ensures PartStart(size, n, i) <= PartStart(size, n, j)
    decreases j - i
  {
    if i < j {
      PartsTile(size, n, i);
      PartStartIsMonotone(size, n, i + 1, j);
    }
  }

  lemma PartInFile(size: nat, n: nat, i: nat)
    requires i < n
    ensures PartStart(size, n, i) + PartLen(size, n, i) <= size
  {
    PartsTile(size, n, i);
    PartStartIsMonotone(size, n, i + 1, n);
  }

  // Lengths differ by one byte at most.
  lemma PartsAreEven(size: nat, n: nat, i: nat, j: nat)
    requires i < n && j < n
    ensures -1 <= PartLen(size, n, i) - PartLen(size, n, j) <= 1
  {
  }

  // Every part has a byte to fetch if, and only if, there are no more parts than bytes.
  lemma NoEmptyPartIff(size: nat, n: nat)
    requires n > 0
    ensures (forall i :: 0 <= i < n ==> PartLen(size, n, i) > 0) <==> size >= n
  {
    if size >= n {
      assert size / n >= 1;
    } else {
      assert size / n == 0 && size % n == size;
      assert PartLen(size, n, n - 1) == 0;
    }
  }

  // Parts with bytes come first, one for each byte at most.
  lemma PartHasBytesIff(size: nat, n: nat, i: nat)
    requires i < n
    ensures PartLen(size, n, i) > 0 <==> i < size
  {
    if size < n {
      assert size / n == 0 && size % n == size;
    } else {
      assert size / n > 0;
    }
  }

  // A split into m parts can take over the part files of a split into n parts: the old ranges
  // begin where the new ones do, and are not longer.
  predicate CanTakeOver(size: nat, n: nat, m: nat)
    requires n > 0 && m > 0
  {
    forall i :: 0 <= i < Min(n, m) ==>
      PartLen(size, n, i) == 0
      || (PartStart(size, n, i) == PartStart(size, m, i) && PartLen(size, n, i) <= PartLen(size, m, i))
  }

  // Then no byte is left for a part that the old split did not have.
  lemma NoNewPartHasBytes(size: nat, n: nat, m: nat)
    requires 0 < n < m && CanTakeOver(size, n, m)
    ensures size <= n
  {
    PartHasBytesIff(size, n, n - 1);
    PartHasBytesIff(size, m, n);
    PartsTile(size, n, n - 1);
    PartsTile(size, m, n - 1);
    PartInFile(size, m, n);
  }

  // The bytes of part i.
  function Slice(blob: Bytes, n: nat, i: nat): Bytes
    requires i < n
  {
    PartInFile(|blob|, n, i);
    blob[PartStart(|blob|, n, i)..PartStart(|blob|, n, i) + PartLen(|blob|, n, i)]
  }

  function Joined(blob: Bytes, n: nat, k: nat): Bytes
    requires k <= n
  {
    if k == 0 then [] else Joined(blob, n, k - 1) + Slice(blob, n, k - 1)
  }

  lemma NextSlice(blob: Bytes, a: nat, b: nat)
    requires a <= b <= |blob|
    ensures blob[..b] == blob[..a] + blob[a..b]
  {
  }

  // The slices, one after the other, are the file.
  lemma {:induction false} SlicesJoin(blob: Bytes, n: nat, k: nat)
    requires 0 < n && k <= n
    ensures PartStart(|blob|, n, k) <= |blob| && Joined(blob, n, k) == blob[..PartStart(|blob|, n, k)]
    ensures k == n ==> Joined(blob, n, k) == blob
    decreases k
  {
    hide PartStart, PartLen;
    PartsTile(|blob|, n, if k < n then k else k - 1);
    if k > 0 {
      SlicesJoin(blob, n, k - 1);
      PartsTile(|blob|, n, k - 1);
      PartInFile(|blob|, n, k - 1);
      NextSlice(blob, PartStart(|blob|, n, k - 1), PartStart(|blob|, n, k));
    }
    assert blob[..|blob|] == blob;
  }

  // What parse_gets_range_ticket_request and handle_gets_common both ask of a range.
  predicate RangeAccepted(start: int, end: int, size: nat)
  {
    0 <= start <= end < size
  }

  // A part that still lacks a byte is requested with a range both checks accept; a part
  // without bytes is never requested, and would be refused.
  lemma RequestedRangeIsAccepted(size: nat, n: nat, i: nat)
    requires i < n
    ensures RangeAccepted(PartStart(size, n, i), PartStart(size, n, i) + PartLen(size, n, i) - 1, size)
            <==> PartLen(size, n, i) > 0
  {
    PartInFile(size, n, i);
  }
}
