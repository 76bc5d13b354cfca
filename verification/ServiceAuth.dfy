/** `canonicalizeQuery` as the control plane and its clients run it. */
module ServiceAuth {
  import opened SshWire
  import opened QueryCanonicalization

  method CompareUtf8Bytes(aBytes: Bytes, bBytes: Bytes) returns (r: int)
    ensures r == ByteOrder(aBytes, bBytes)
    ensures r == 0 <==> aBytes == bBytes
    ensures r < 0 <==> (|aBytes| < |bBytes| && aBytes == bBytes[..|aBytes|])
                       || exists k :: 0 <= k < |aBytes| && k < |bBytes| && aBytes[..k] == bBytes[..k] && aBytes[k] < bBytes[k]
  {
    ByteOrderZero(aBytes, bBytes);
    ByteOrderIff(aBytes, bBytes);
    var len := if |aBytes| <= |bBytes| then |aBytes| else |bBytes|;
    for i := 0 to len
      invariant ByteOrder(aBytes, bBytes) == ByteOrder(aBytes[i..], bBytes[i..])
    {
      if aBytes[i] != bBytes[i] {
        return aBytes[i] as int - bBytes[i];
      }
    }
    return |aBytes| - |bBytes|;
  }

  /** Sinks entry `i` into the sorted entries after it. */
  method Sink(entries: array<Entry>, i: nat)
    requires i < entries.Length
    modifies entries
    ensures entries[..i] == old(entries[..i])
    ensures entries[i..] == InsertFirst(old(entries[i]), old(entries[i + 1..]))
    decreases entries.Length - i
  {
    if i + 1 < entries.Length {
      ghost var e, tail := entries[i], entries[i + 1..];
      var order := CompareUtf8Bytes(entries[i].key + [0] + entries[i].value,
                                    entries[i + 1].key + [0] + entries[i + 1].value);
      if order > 0 {
        entries[i], entries[i + 1] := entries[i + 1], entries[i];
        assert entries[i + 2..] == tail[1..];
        Sink(entries, i + 1);
        assert entries[..i + 1][i] == tail[0];
        assert entries[i..] == [tail[0]] + entries[i + 1..];
      } else {
        assert entries[i..] == [e] + tail;
      }
    }
  }

  /** The stable sort of the entries array. */
  method SortEntries(entries: array<Entry>)
    modifies entries
    ensures entries[..] == Sort(old(entries[..]))
  {
    var i := entries.Length;
    ghost var before := entries[..];
    while i > 0
      invariant 0 <= i <= entries.Length
      invariant entries[..i] == before[..i] && entries[i..] == Sort(before[i..])
    {
      i := i - 1;
      assert before[i..] == [before[i]] + before[i + 1..];
      assert entries[..i + 1][..i] == before[..i + 1][..i];
      assert entries[i] == entries[..i + 1][i];
      Sink(entries, i);
    }
  }

  method CanonicalizeQuery(search: Bytes, utf8: Bytes -> Bytes) returns (canonical: Bytes)
    ensures canonical == CanonicalizeQuerySpec(search, utf8)
    ensures forall valid :: Repairs(utf8, valid) ==>
              var parsed := ParseSearch(canonical, utf8);
              Ascends(parsed) && multiset(parsed) == multiset(ParseSearch(search, utf8))
  {
    forall valid | Repairs(utf8, valid)
      ensures var parsed := ParseSearch(CanonicalizeQuerySpec(search, utf8), utf8);
              Ascends(parsed) && multiset(parsed) == multiset(ParseSearch(search, utf8))
    {
      CanonicalAscends(search, utf8, valid);
    }
    var params := ParseSearch(search, utf8);
    var entries := new Entry[|params|](i requires 0 <= i < |params| => params[i]);
    assert entries[..] == params;
    SortEntries(entries);
    canonical := Join(entries[..]);
  }
}
