/** The canonical query string of `sig1`, on UTF-8 bytes. */
module QueryCanonicalization {
  import opened Support
  import opened SshWire

  /** A decoded `key=value` entry. */
  datatype Entry = Entry(key: Bytes, value: Bytes)

  // ---- byte order ----

  /** The sign of the first difference, or of the difference in length. */
  function ByteOrder(a: Bytes, b: Bytes): int {
    if a == [] || b == [] then |a| - |b|
    else if a[0] != b[0] then a[0] as int - b[0]
    else ByteOrder(a[1..], b[1..])
  }

  lemma {:induction false} ByteOrderZero(a: Bytes, b: Bytes)
    ensures ByteOrder(a, b) == 0 <==> a == b
  {
    if a != [] && b != [] && a[0] == b[0] {
      ByteOrderZero(a[1..], b[1..]);
      assert a == [a[0]] + a[1..] && b == [b[0]] + b[1..];
    }
  }

  lemma {:induction false} ByteOrderFlips(a: Bytes, b: Bytes)
    ensures ByteOrder(b, a) == -ByteOrder(a, b)
  {
    if a != [] && b != [] && a[0] == b[0] {
      ByteOrderFlips(a[1..], b[1..]);
    }
  }

  lemma {:induction false} ByteOrderTransitive(a: Bytes, b: Bytes, c: Bytes)
    requires ByteOrder(a, b) <= 0 && ByteOrder(b, c) <= 0
    ensures ByteOrder(a, c) <= 0
  {
    if a != [] && b != [] && c != [] && a[0] == b[0] == c[0] {
      ByteOrderTransitive(a[1..], b[1..], c[1..]);
    }
  }

  /** `a` is a proper prefix of `b`, or has the smaller byte where they first differ. */
  ghost predicate Precedes(a: Bytes, b: Bytes) {
    || (|a| < |b| && a == b[..|a|])
    || exists k :: 0 <= k < |a| && k < |b| && a[..k] == b[..k] && a[k] < b[k]
  }

  lemma PrecedesFirst(a: Bytes, b: Bytes)
    requires a != [] && b != []
    ensures Precedes(a, b) <==> a[0] < b[0] || (a[0] == b[0] && Precedes(a[1..], b[1..]))
  {
    if a[0] == b[0] {
      assert |a| < |b| ==> (a == b[..|a|] <==> a[1..] == b[1..][..|a| - 1]);
      if k :| 0 <= k < |a| && k < |b| && a[..k] == b[..k] && a[k] < b[k] {
        assert a[1..][..k - 1] == a[..k][1..] == b[..k][1..] == b[1..][..k - 1];
        assert a[1..][k - 1] < b[1..][k - 1];
      }
      if k :| 0 <= k < |a| - 1 && k < |b| - 1 && a[1..][..k] == b[1..][..k] && a[1..][k] < b[1..][k] {
        assert a[..k + 1] == [a[0]] + a[1..][..k] == [b[0]] + b[1..][..k] == b[..k + 1];
        assert a[k + 1] < b[k + 1];
      }
    } else if a[0] < b[0] {
      assert a[..0] == b[..0];
    }
  }

  /** The order is upwards: negative exactly when the first argument comes first. */
  lemma {:induction false} ByteOrderIff(a: Bytes, b: Bytes)
    ensures ByteOrder(a, b) < 0 <==> Precedes(a, b)
    ensures ByteOrder(a, b) > 0 <==> Precedes(b, a)
  {
    if a == [] || b == [] {
      assert a == [] && b != [] ==> a == b[..|a|];
      assert b == [] && a != [] ==> b == a[..|b|];
    } else {
      PrecedesFirst(a, b);
      PrecedesFirst(b, a);
      if a[0] == b[0] {
        ByteOrderIff(a[1..], b[1..]);
      }
    }
  }

  function SortKey(e: Entry): Bytes {
    e.key + [0] + e.value
  }

  predicate InOrder(a: Entry, b: Entry) {
    ByteOrder(SortKey(a), SortKey(b)) <= 0
  }

  // ---- the stable sort ----

  function InsertFirst(e: Entry, sorted: seq<Entry>): seq<Entry> {
    if sorted == [] || InOrder(e, sorted[0]) then [e] + sorted
    else [sorted[0]] + InsertFirst(e, sorted[1..])
  }

  function Sort(entries: seq<Entry>): seq<Entry> {
    if entries == [] then [] else InsertFirst(entries[0], Sort(entries[1..]))
  }

  ghost predicate Sorted(entries: seq<Entry>) {
    forall i, j :: 0 <= i < j < |entries| ==> InOrder(entries[i], entries[j])
  }

  /** The entries with this sort key, in their order. */
  function Tied(entries: seq<Entry>, key: Bytes): seq<Entry> {
    if entries == [] then []
    else (if SortKey(entries[0]) == key then [entries[0]] else []) + Tied(entries[1..], key)
  }

  lemma TiedFrom(e: Entry, rest: seq<Entry>, key: Bytes)
    ensures Tied([e] + rest, key) == (if SortKey(e) == key then [e] + Tied(rest, key) else Tied(rest, key))
  {
    assert ([e] + rest)[1..] == rest;
  }

  lemma {:induction false} InsertFirstIsStable(e: Entry, sorted: seq<Entry>, key: Bytes)
    ensures Tied(InsertFirst(e, sorted), key) == Tied([e] + sorted, key)
  {
    if sorted != [] && !InOrder(e, sorted[0]) {
      InsertFirstIsStable(e, sorted[1..], key);
      ByteOrderZero(SortKey(e), SortKey(sorted[0]));
      TiedFrom(sorted[0], InsertFirst(e, sorted[1..]), key);
      TiedFrom(e, sorted[1..], key);
      TiedFrom(e, sorted, key);
    }
  }

  lemma {:induction false} InsertFirstPermutes(e: Entry, sorted: seq<Entry>)
    ensures multiset(InsertFirst(e, sorted)) == multiset{e} + multiset(sorted)
  {
    if sorted != [] && !InOrder(e, sorted[0]) {
      InsertFirstPermutes(e, sorted[1..]);
      assert sorted == [sorted[0]] + sorted[1..];
    }
  }

  lemma {:induction false} InsertFirstSorts(e: Entry, sorted: seq<Entry>)
    requires Sorted(sorted)
    ensures Sorted(InsertFirst(e, sorted))
  {
    if sorted == [] {
    } else if InOrder(e, sorted[0]) {
      forall j | 0 <= j < |sorted| ensures InOrder(e, sorted[j]) {
        if j > 0 {
          ByteOrderTransitive(SortKey(e), SortKey(sorted[0]), SortKey(sorted[j]));
        }
      }
    } else {
      var rest := InsertFirst(e, sorted[1..]);
      InsertFirstSorts(e, sorted[1..]);
      InsertFirstPermutes(e, sorted[1..]);
      ByteOrderFlips(SortKey(e), SortKey(sorted[0]));
      forall j | 0 <= j < |rest| ensures InOrder(sorted[0], rest[j]) {
        assert rest[j] in multiset(rest);
        assert rest[j] == e || rest[j] in sorted[1..];
      }
    }
  }

  /** Sorted, a permutation, and stable: ties keep their order. */
  lemma {:induction false} SortIsAStableSort(entries: seq<Entry>, key: Bytes)
    ensures Sorted(Sort(entries))
    ensures multiset(Sort(entries)) == multiset(entries)
    ensures Tied(Sort(entries), key) == Tied(entries, key)
  {
    if entries != [] {
      SortIsAStableSort(entries[1..], key);
      InsertFirstSorts(entries[0], Sort(entries[1..]));
      InsertFirstIsStable(entries[0], Sort(entries[1..]), key);
      InsertFirstPermutes(entries[0], Sort(entries[1..]));
      TiedFrom(entries[0], Sort(entries[1..]), key);
      assert entries == [entries[0]] + entries[1..];
    }
  }

  ghost predicate SameTies(s: seq<Entry>, t: seq<Entry>) {
    forall key :: Tied(s, key) == Tied(t, key)
  }

  lemma {:induction false} TiedIsPresent(s: seq<Entry>, key: Bytes)
    requires Tied(s, key) != []
    ensures exists k :: 0 <= k < |s| && SortKey(s[k]) == key
  {
    if SortKey(s[0]) != key {
      TiedIsPresent(s[1..], key);
      var k :| 0 <= k < |s[1..]| && SortKey(s[1..][k]) == key;
      assert SortKey(s[k + 1]) == key;
    }
  }

  lemma FirstIsLeast(s: seq<Entry>, t: seq<Entry>)
    requires Sorted(t) && s != [] && t != [] && SameTies(s, t)
    ensures InOrder(t[0], s[0])
  {
    var key := SortKey(s[0]);
    assert Tied(s, key) != [];
    TiedIsPresent(t, key);
    var k :| 0 <= k < |t| && SortKey(t[k]) == key;
    if k == 0 {
      ByteOrderZero(key, key);
    } else {
      assert InOrder(t[0], t[k]);
    }
  }

  lemma NonEmptyTogether(s: seq<Entry>, t: seq<Entry>)
    requires SameTies(s, t)
    ensures t != [] ==> s != []
  {
    if t != [] {
      assert Tied(s, SortKey(t[0])) == Tied(t, SortKey(t[0])) != [];
    }
  }

  lemma TiedRest(s: seq<Entry>, key: Bytes)
    requires s != []
    ensures Tied(s[1..], key) == (if SortKey(s[0]) == key then Tied(s, key)[1..] else Tied(s, key))
  {
  }

  /** A stable sort is unique: sorted lists with the same ties are the same list. */
  lemma {:induction false} StableSortIsUnique(s: seq<Entry>, t: seq<Entry>)
    requires Sorted(s) && Sorted(t) && SameTies(s, t)
    ensures s == t
  {
    NonEmptyTogether(s, t);
    NonEmptyTogether(t, s);
    if s != [] {
      FirstIsLeast(s, t);
      FirstIsLeast(t, s);
      var key := SortKey(s[0]);
      ByteOrderFlips(key, SortKey(t[0]));
      ByteOrderZero(key, SortKey(t[0]));
      assert Tied(s, key)[0] == s[0] && Tied(t, key)[0] == t[0];
      forall k ensures Tied(s[1..], k) == Tied(t[1..], k) {
        assert Tied(s, k) == Tied(t, k);
        TiedRest(s, k);
        TiedRest(t, k);
      }
      StableSortIsUnique(s[1..], t[1..]);
      assert s == [s[0]] + s[1..] && t == [t[0]] + t[1..];
    }
  }

  // ---- percent encoding ----

  const AMPERSAND: byte := 38
  const EQUALS: byte := 61
  const PERCENT: byte := 37
  const PLUS: byte := 43
  const SPACE: byte := 32
  const QUESTION: byte := 63

  /** The bytes `encodeURIComponent` leaves alone: letters, digits and - _ . ! ~ * ' ( ). */
  predicate Unreserved(b: byte) {
    48 <= b <= 57 || 65 <= b <= 90 || 97 <= b <= 122
    || b == 45 || b == 95 || b == 46 || b == 33 || b == 126 || b == 42 || b == 39 || b == 40 || b == 41
  }

  function HexDigit(n: int): byte
    requires 0 <= n < 16
  {
    if n < 10 then 48 + n else 55 + n
  }

  /** The value of a hexadecimal digit of either case. */
  function HexValue(b: byte): Option<int> {
    if 48 <= b <= 57 then Some(b - 48)
    else if 65 <= b <= 70 then Some(b - 55)
    else if 97 <= b <= 102 then Some(b - 87)
    else None
  }

  function EncodeByte(b: byte): Bytes {
    if Unreserved(b) then [b] else [PERCENT, HexDigit(b / 16), HexDigit(b % 16)]
  }

  function EncodeURIComponent(text: Bytes): Bytes {
    if text == [] then [] else EncodeByte(text[0]) + EncodeURIComponent(text[1..])
  }

  const MARKS := "-_.!~*'()"
  const HEX_DIGITS := "0123456789ABCDEF"

  /** A letter, a digit or a mark stands for itself; any other byte is escaped in upper-case hexadecimal. */
  lemma EncodesOneByte(b: byte)
    ensures var c := b as char;
            EncodeURIComponent([b]) ==
            if 'A' <= c <= 'Z' || 'a' <= c <= 'z' || '0' <= c <= '9' || c in MARKS then [b]
            else [PERCENT, HEX_DIGITS[b / 16] as int, HEX_DIGITS[b % 16] as int]
  {
    assert [b][1..] == [];
    var c := b as char;
    assert c in MARKS <==> c == MARKS[0] || c == MARKS[1] || c == MARKS[2] || c == MARKS[3] || c == MARKS[4] || c == MARKS[5]
                           || c == MARKS[6] || c == MARKS[7] || c == MARKS[8];
  }

  /** Encoding goes byte by byte. */
  lemma {:induction false} EncodesInPieces(a: Bytes, b: Bytes)
    ensures EncodeURIComponent(a + b) == EncodeURIComponent(a) + EncodeURIComponent(b)
  {
    if a == [] {
      assert a + b == b;
    } else {
      assert (a + b)[1..] == a[1..] + b;
      EncodesInPieces(a[1..], b);
    }
  }

  /** Percent-decoding of application/x-www-form-urlencoded: a lone `%` stands for itself. */
  function FormDecode(text: Bytes): Bytes {
    if text == [] then []
    else if text[0] == PLUS then [SPACE] + FormDecode(text[1..])
    else if text[0] == PERCENT && |text| >= 3 && HexValue(text[1]).Some? && HexValue(text[2]).Some?
    then [HexValue(text[1]).value * 16 + HexValue(text[2]).value] + FormDecode(text[3..])
    else [text[0]] + FormDecode(text[1..])
  }

  lemma {:induction false} DecodesBack(text: Bytes)
    ensures FormDecode(EncodeURIComponent(text)) == text
    ensures forall b :: b in EncodeURIComponent(text) ==> Unreserved(b) || b == PERCENT
  {
    if text != [] {
      var rest := EncodeURIComponent(text[1..]);
      DecodesBack(text[1..]);
      assert text == [text[0]] + text[1..];
      var whole := EncodeByte(text[0]) + rest;
      if Unreserved(text[0]) {
        assert whole[1..] == rest;
      } else {
        assert whole[3..] == rest;
      }
    }
  }

  /** A plus and an escaped space decode alike. */
  lemma PlusIsASpace(rest: Bytes)
    ensures FormDecode([PLUS] + rest) == FormDecode([PERCENT, 50, 48] + rest) == [SPACE] + FormDecode(rest)
  {
    assert ([PLUS] + rest)[1..] == rest && ([PERCENT, 50, 48] + rest)[3..] == rest;
  }

  // ---- the string ----

  function EncodeEntry(e: Entry): Bytes {
    EncodeURIComponent(e.key) + [EQUALS] + EncodeURIComponent(e.value)
  }

  function Join(entries: seq<Entry>): Bytes {
    if entries == [] then []
    else if |entries| == 1 then EncodeEntry(entries[0])
    else EncodeEntry(entries[0]) + [AMPERSAND] + Join(entries[1..])
  }

  function Canonical(entries: seq<Entry>): Bytes {
    Join(Sort(entries))
  }

  // ---- URLSearchParams ----

  function Before(text: Bytes, separator: byte): Bytes {
    if text == [] || text[0] == separator then [] else [text[0]] + Before(text[1..], separator)
  }

  /** What follows the first separator; nothing when there is none. */
  function After(text: Bytes, separator: byte): Bytes {
    if text == [] then [] else if text[0] == separator then text[1..] else After(text[1..], separator)
  }

  lemma {:induction false} Shorter(text: Bytes, separator: byte)
    requires text != []
    ensures |After(text, separator)| < |text|
  {
    if text[0] != separator && text[1..] != [] {
      Shorter(text[1..], separator);
    }
  }

  /** `utf8` is the platform's lossy UTF-8 decoding, seen on bytes. */
  function ParseEntry(piece: Bytes, utf8: Bytes -> Bytes): Entry {
    Entry(utf8(FormDecode(Before(piece, EQUALS))), utf8(FormDecode(After(piece, EQUALS))))
  }

  function ParsePieces(text: Bytes, utf8: Bytes -> Bytes): seq<Entry>
    decreases |text|
  {
    if text == [] then []
    else
      Shorter(text, AMPERSAND);
      var piece, rest := Before(text, AMPERSAND), After(text, AMPERSAND);
      (if piece == [] then [] else [ParseEntry(piece, utf8)]) + ParsePieces(rest, utf8)
  }

  function ParseSearch(search: Bytes, utf8: Bytes -> Bytes): seq<Entry> {
    ParsePieces(if search != [] && search[0] == QUESTION then search[1..] else search, utf8)
  }

  lemma {:induction false} SplitAtFirst(head: Bytes, separator: byte, tail: Bytes)
    requires separator !in head
    ensures Before(head + [separator] + tail, separator) == head && After(head + [separator] + tail, separator) == tail
    ensures Before(head, separator) == head && After(head, separator) == []
  {
    var text := head + [separator] + tail;
    if head == [] {
      assert text[1..] == tail;
    } else {
      SplitAtFirst(head[1..], separator, tail);
      assert text[1..] == head[1..] + [separator] + tail;
      assert head == [head[0]] + head[1..];
    }
  }

  /** Pieces between separators are parsed one after another; an empty piece is no entry. */
  lemma {:induction false} ParsesInPieces(head: Bytes, tail: Bytes, utf8: Bytes -> Bytes)
    ensures ParsePieces(head + [AMPERSAND] + tail, utf8) == ParsePieces(head, utf8) + ParsePieces(tail, utf8)
    decreases |head|
  {
    var text := head + [AMPERSAND] + tail;
    if AMPERSAND !in head {
      SplitAtFirst(head, AMPERSAND, tail);
    } else {
      var piece, rest := Before(head, AMPERSAND), After(head, AMPERSAND);
      SplitsAt(head, AMPERSAND);
      Shorter(head, AMPERSAND);
      assert text == piece + [AMPERSAND] + (rest + [AMPERSAND] + tail);
      SplitAtFirst(piece, AMPERSAND, rest + [AMPERSAND] + tail);
      SplitAtFirst(piece, AMPERSAND, rest);
      ParsesInPieces(rest, tail, utf8);
    }
  }

  lemma {:induction false} SplitsAt(text: Bytes, separator: byte)
    requires separator in text
    ensures text == Before(text, separator) + [separator] + After(text, separator) && separator !in Before(text, separator)
  {
    if text[0] != separator {
      SplitsAt(text[1..], separator);
    }
  }

  /** A leading question mark is dropped once. */
  lemma QuestionMarkIsDropped(search: Bytes, utf8: Bytes -> Bytes)
    ensures ParseSearch([QUESTION] + search, utf8) == ParsePieces(search, utf8)
  {
    assert ([QUESTION] + search)[1..] == search;
  }

  /** An encoded entry is not empty, has no separator of its own, and cannot be taken for the leading `?`. */
  lemma EntryIsOnePiece(e: Entry)
    ensures EncodeEntry(e) != [] && AMPERSAND !in EncodeEntry(e) && EncodeEntry(e)[0] != QUESTION
  {
    DecodesBack(e.key);
    DecodesBack(e.value);
    var key, value := EncodeURIComponent(e.key), EncodeURIComponent(e.value);
    assert AMPERSAND !in key && AMPERSAND !in value;
    if key == [] {
      assert EncodeEntry(e)[0] == EQUALS;
    } else {
      assert EncodeEntry(e)[0] == key[0] && key[0] in key;
    }
  }

  lemma EntryParsesBack(e: Entry, utf8: Bytes -> Bytes)
    requires utf8(e.key) == e.key && utf8(e.value) == e.value
    ensures ParseEntry(EncodeEntry(e), utf8) == e
  {
    DecodesBack(e.key);
    DecodesBack(e.value);
    var key, value := EncodeURIComponent(e.key), EncodeURIComponent(e.value);
    assert EQUALS !in key;
    SplitAtFirst(key, EQUALS, value);
  }

  ghost predicate Decoded(entries: seq<Entry>, utf8: Bytes -> Bytes) {
    forall e :: e in entries ==> utf8(e.key) == e.key && utf8(e.value) == e.value
  }

  /** Parsing a joined list gives back the list. */
  lemma {:induction false} JoinParsesBack(entries: seq<Entry>, utf8: Bytes -> Bytes)
    requires Decoded(entries, utf8)
    ensures ParsePieces(Join(entries), utf8) == entries
    ensures entries != [] ==> Join(entries) != [] && Join(entries)[0] != QUESTION
  {
    if entries != [] {
      var head := EncodeEntry(entries[0]);
      EntryIsOnePiece(entries[0]);
      EntryParsesBack(entries[0], utf8);
      JoinParsesBack(entries[1..], utf8);
      assert entries == [entries[0]] + entries[1..];
      SplitAtFirst(head, AMPERSAND, Join(entries[1..]));
    }
  }

  lemma JoinIsInjective(s: seq<Entry>, t: seq<Entry>)
    requires Join(s) == Join(t)
    ensures s == t
  {
    JoinParsesBack(s, x => x);
    JoinParsesBack(t, x => x);
  }

  // ---- what the canonical form identifies ----

  /** Different multisets of entries have different canonical strings. */
  lemma CanonicalSeparatesMultisets(s: seq<Entry>, t: seq<Entry>)
    requires Canonical(s) == Canonical(t)
    ensures multiset(s) == multiset(t)
  {
    JoinIsInjective(Sort(s), Sort(t));
    SortIsAStableSort(s, []);
    SortIsAStableSort(t, []);
  }

  /** No two different entries share a sort key. */
  predicate TieFree(entries: seq<Entry>) {
    forall a, b | a in entries && b in entries :: SortKey(a) == SortKey(b) ==> a == b
  }

  lemma CountFrom(first: Entry, rest: seq<Entry>, e: Entry)
    ensures multiset([first] + rest)[e] == (if first == e then 1 else 0) + multiset(rest)[e]
  {}

  lemma {:induction false} TiesAreCopies(s: seq<Entry>, e: Entry)
    requires forall a :: a in s && SortKey(a) == SortKey(e) ==> a == e
    ensures |Tied(s, SortKey(e))| == multiset(s)[e]
    ensures forall k :: 0 <= k < |Tied(s, SortKey(e))| ==> Tied(s, SortKey(e))[k] == e
  {
    if s != [] {
      forall a | a in s[1..] && SortKey(a) == SortKey(e) ensures a == e { assert a in s; }
      TiesAreCopies(s[1..], e);
      assert s == [s[0]] + s[1..];
      CountFrom(s[0], s[1..], e);
      TiedFrom(s[0], s[1..], SortKey(e));
    }
  }

  lemma PermutationsOfTieFreeHaveSameTies(s: seq<Entry>, t: seq<Entry>, key: Bytes)
    requires TieFree(s) && multiset(s) == multiset(t)
    ensures Tied(s, key) == Tied(t, key)
  {
    if Tied(s, key) == [] && Tied(t, key) == [] {
      return;
    }
    var e: Entry;
    if Tied(s, key) != [] {
      TiedIsPresent(s, key);
      var k :| 0 <= k < |s| && SortKey(s[k]) == key;
      e := s[k];
    } else {
      TiedIsPresent(t, key);
      var k :| 0 <= k < |t| && SortKey(t[k]) == key;
      e := t[k];
      assert e in multiset(t);
    }
    assert e in multiset(s);
    forall a | a in t && SortKey(a) == key ensures a == e { assert a in multiset(t); assert a in multiset(s); }
    TiesAreCopies(s, e);
    TiesAreCopies(t, e);
  }

  lemma PermutationsAgree(s: seq<Entry>, t: seq<Entry>)
    requires TieFree(s) && multiset(s) == multiset(t)
    ensures Canonical(s) == Canonical(t)
  {
    SortIsAStableSort(s, []);
    SortIsAStableSort(t, []);
    forall key ensures Tied(Sort(s), key) == Tied(Sort(t), key) {
      SortIsAStableSort(s, key);
      SortIsAStableSort(t, key);
      PermutationsOfTieFreeHaveSameTies(s, t, key);
    }
    StableSortIsUnique(Sort(s), Sort(t));
  }

  /** Keys without NUL never tie. */
  lemma NulFreeKeysAreTieFree(entries: seq<Entry>)
    requires forall e :: e in entries ==> 0 !in e.key
    ensures TieFree(entries)
  {
    forall a, b | a in entries && b in entries && SortKey(a) == SortKey(b) ensures a == b {
      SplitAtFirst(a.key, 0, a.value);
      SplitAtFirst(b.key, 0, b.value);
    }
  }

  lemma FirstOfTied(a: Entry, b: Entry, rest: seq<Entry>)
    ensures Tied([a, b] + rest, SortKey(a)) != [] && Tied([a, b] + rest, SortKey(a))[0] == a
  {
    assert [a, b] + rest == [a] + ([b] + rest);
    TiedFrom(a, [b] + rest, SortKey(a));
  }

  /** Two tied entries keep their order through the sort, so swapping them changes the canonical string. */
  lemma TiesShow(a: Entry, b: Entry, rest: seq<Entry>)
    requires a != b && SortKey(a) == SortKey(b)
    ensures Canonical([a, b] + rest) != Canonical([b, a] + rest)
  {
    var s, t, key := [a, b] + rest, [b, a] + rest, SortKey(a);
    SortIsAStableSort(s, key);
    SortIsAStableSort(t, key);
    FirstOfTied(a, b, rest);
    FirstOfTied(b, a, rest);
    assert Sort(s) != Sort(t);
    if Canonical(s) == Canonical(t) {
      JoinIsInjective(Sort(s), Sort(t));
    }
  }

  lemma {:induction false} BringForward(s: seq<Entry>, a: Entry) returns (rest: seq<Entry>)
    requires a in s
    ensures multiset(s) == multiset([a] + rest)
  {
    if s[0] == a {
      rest := s[1..];
      assert s == [a] + rest;
    } else {
      rest := BringForward(s[1..], a);
      rest := [s[0]] + rest;
      assert s == [s[0]] + s[1..];
      assert [a] + rest == [a] + [s[0]] + rest[1..];
    }
  }

  lemma BringBothForward(s: seq<Entry>, a: Entry, b: Entry) returns (rest: seq<Entry>)
    requires a in s && b in s && a != b
    ensures multiset([a, b] + rest) == multiset([b, a] + rest) == multiset(s)
  {
    var others := BringForward(s, a);
    assert b in multiset(s);
    rest := BringForward(others, b);
    assert [a, b] + rest == [a] + ([b] + rest) && [b, a] + rest == [b] + ([a] + rest);
  }

  ghost predicate OrderMatters(s: seq<Entry>) {
    exists p, q :: multiset(p) == multiset(s) && multiset(q) == multiset(s) && Canonical(p) != Canonical(q)
  }

  lemma TieFreeOrderIsIrrelevant(s: seq<Entry>)
    requires TieFree(s)
    ensures !OrderMatters(s)
  {
    forall p, q | multiset(p) == multiset(s) && multiset(q) == multiset(s) ensures Canonical(p) == Canonical(q) {
      PermutationsAgree(s, p);
      PermutationsAgree(s, q);
    }
  }

  lemma SwapTied(s: seq<Entry>, a: Entry, b: Entry) returns (p: seq<Entry>, q: seq<Entry>)
    requires a in s && b in s && SortKey(a) == SortKey(b) && a != b
    ensures multiset(p) == multiset(s) && multiset(q) == multiset(s) && Canonical(p) != Canonical(q)
  {
    var rest := BringBothForward(s, a, b);
    TiesShow(a, b, rest);
    p, q := [a, b] + rest, [b, a] + rest;
  }

  lemma TiesMakeOrderMatter(s: seq<Entry>, a: Entry, b: Entry)
    requires a in s && b in s && SortKey(a) == SortKey(b) && a != b
    ensures OrderMatters(s)
  {
    var p, q := SwapTied(s, a, b);
  }

  /** The order of a query's entries never matters exactly when no two different entries tie. */
  lemma OrderIsIrrelevantIff(s: seq<Entry>)
    ensures !OrderMatters(s) <==> TieFree(s)
  {
    if TieFree(s) {
      TieFreeOrderIsIrrelevant(s);
    } else {
      var a, b :| a in s && b in s && SortKey(a) == SortKey(b) && a != b;
      TiesMakeOrderMatter(s, a, b);
    }
  }

  // ---- a query whose order matters: `a%00=b&a=%00b` and its swap ----

  const NUL_IN_KEY := Entry([97, 0], [98])
  const NUL_IN_VALUE := Entry([97], [0, 98])
  const TIED_QUERY: Bytes := [97, 37, 48, 48, 61, 98, 38, 97, 61, 37, 48, 48, 98]
  const SWAPPED_QUERY: Bytes := [97, 61, 37, 48, 48, 98, 38, 97, 37, 48, 48, 61, 98]

  lemma EncodesOne(a: byte)
    ensures EncodeURIComponent([a]) == EncodeByte(a)
  {
    assert [a][1..] == [];
  }

  lemma EncodesTwo(a: byte, b: byte)
    ensures EncodeURIComponent([a, b]) == EncodeByte(a) + EncodeByte(b)
  {
    assert [a, b][1..] == [b];
    EncodesOne(b);
  }

  lemma TiedEntriesEncoded()
    ensures EncodeEntry(NUL_IN_KEY) == [97, 37, 48, 48, 61, 98] && EncodeEntry(NUL_IN_VALUE) == [97, 61, 37, 48, 48, 98]
  {
    EncodesTwo(97, 0);
    EncodesOne(98);
    EncodesOne(97);
    EncodesTwo(0, 98);
  }

  lemma JoinsTwo(a: Entry, b: Entry)
    ensures Join([a, b]) == EncodeEntry(a) + [AMPERSAND] + EncodeEntry(b)
  {
    assert [a, b][1..] == [b];
  }

  lemma TiedQueriesAreJoins()
    ensures Join([NUL_IN_KEY, NUL_IN_VALUE]) == TIED_QUERY && Join([NUL_IN_VALUE, NUL_IN_KEY]) == SWAPPED_QUERY
  {
    TiedEntriesEncoded();
    JoinsTwo(NUL_IN_KEY, NUL_IN_VALUE);
    JoinsTwo(NUL_IN_VALUE, NUL_IN_KEY);
  }

  lemma TiedQueriesCanonicalizeApart()
    ensures Canonical([NUL_IN_KEY, NUL_IN_VALUE]) != Canonical([NUL_IN_VALUE, NUL_IN_KEY])
  {
    assert SortKey(NUL_IN_KEY) == [97, 0, 0, 98] == SortKey(NUL_IN_VALUE);
    TiesShow(NUL_IN_KEY, NUL_IN_VALUE, []);
    assert [NUL_IN_KEY, NUL_IN_VALUE] + [] == [NUL_IN_KEY, NUL_IN_VALUE];
    assert [NUL_IN_VALUE, NUL_IN_KEY] + [] == [NUL_IN_VALUE, NUL_IN_KEY];
  }

  lemma JoinedSearchParses(entries: seq<Entry>, search: Bytes, utf8: Bytes -> Bytes)
    requires Decoded(entries, utf8) && Join(entries) == search && entries != []
    ensures ParseSearch(search, utf8) == entries
  {
    JoinParsesBack(entries, utf8);
  }

  /** The two queries hold the same entries and canonicalize apart. */
  lemma TiedQueryShowsItsOrder(utf8: Bytes -> Bytes)
    requires utf8([97, 0]) == [97, 0] && utf8([98]) == [98] && utf8([97]) == [97] && utf8([0, 98]) == [0, 98]
    ensures ParseSearch(TIED_QUERY, utf8) == [NUL_IN_KEY, NUL_IN_VALUE]
    ensures ParseSearch(SWAPPED_QUERY, utf8) == [NUL_IN_VALUE, NUL_IN_KEY]
    ensures CanonicalizeQuerySpec(TIED_QUERY, utf8) != CanonicalizeQuerySpec(SWAPPED_QUERY, utf8)
  {
    TiedQueriesAreJoins();
    JoinedSearchParses([NUL_IN_KEY, NUL_IN_VALUE], TIED_QUERY, utf8);
    JoinedSearchParses([NUL_IN_VALUE, NUL_IN_KEY], SWAPPED_QUERY, utf8);
    TiedQueriesCanonicalizeApart();
  }

  /** Sorting twice is sorting once. */
  lemma SortIsIdempotent(entries: seq<Entry>)
    ensures Sort(Sort(entries)) == Sort(entries)
  {
    SortIsAStableSort(entries, []);
    SortIsAStableSort(Sort(entries), []);
    forall key ensures Tied(Sort(Sort(entries)), key) == Tied(Sort(entries), key) {
      SortIsAStableSort(Sort(entries), key);
    }
    StableSortIsUnique(Sort(Sort(entries)), Sort(entries));
  }

  function CanonicalizeQuerySpec(search: Bytes, utf8: Bytes -> Bytes): Bytes {
    Canonical(ParseSearch(search, utf8))
  }

  /** The lossy decoding yields text it leaves alone. */
  ghost predicate Repairs(utf8: Bytes -> Bytes, valid: Bytes -> bool) {
    (forall x :: valid(utf8(x))) && forall x :: valid(x) ==> utf8(x) == x
  }

  lemma {:induction false} ParsedIsDecoded(text: Bytes, utf8: Bytes -> Bytes, valid: Bytes -> bool)
    requires Repairs(utf8, valid)
    ensures Decoded(ParsePieces(text, utf8), utf8)
    decreases |text|
  {
    if text != [] {
      Shorter(text, AMPERSAND);
      ParsedIsDecoded(After(text, AMPERSAND), utf8, valid);
    }
  }

  /** No entry comes before an earlier one by its key, a NUL and its value. */
  ghost predicate Ascends(entries: seq<Entry>) {
    forall i, j :: 0 <= i < j < |entries| ==>
      !Precedes(entries[j].key + [0] + entries[j].value, entries[i].key + [0] + entries[i].value)
  }

  /** Read back, the canonical string holds the query's entries in ascending order. */
  lemma CanonicalAscends(search: Bytes, utf8: Bytes -> Bytes, valid: Bytes -> bool)
    requires Repairs(utf8, valid)
    ensures var parsed := ParseSearch(CanonicalizeQuerySpec(search, utf8), utf8);
            Ascends(parsed) && multiset(parsed) == multiset(ParseSearch(search, utf8))
  {
    var entries := ParseSearch(search, utf8);
    ParsedIsDecoded(if search != [] && search[0] == QUESTION then search[1..] else search, utf8, valid);
    SortIsAStableSort(entries, []);
    forall e | e in Sort(entries) ensures e in entries { assert e in multiset(Sort(entries)); }
    JoinParsesBack(Sort(entries), utf8);
    SortedAscends(Sort(entries));
  }

  lemma SortedAscends(entries: seq<Entry>)
    requires Sorted(entries)
    ensures Ascends(entries)
  {
    forall i, j | 0 <= i < j < |entries|
      ensures !Precedes(entries[j].key + [0] + entries[j].value, entries[i].key + [0] + entries[i].value)
    {
      assert InOrder(entries[i], entries[j]);
      ByteOrderIff(SortKey(entries[i]), SortKey(entries[j]));
    }
  }

  /** The canonical form is a fixed point: canonicalizing it again changes nothing. */
  lemma CanonicalFormIsAFixedPoint(search: Bytes, utf8: Bytes -> Bytes, valid: Bytes -> bool)
    requires Repairs(utf8, valid)
    ensures var canonical := CanonicalizeQuerySpec(search, utf8);
            CanonicalizeQuerySpec(canonical, utf8) == canonical
  {
    var entries := ParseSearch(search, utf8);
    ParsedIsDecoded(if search != [] && search[0] == QUESTION then search[1..] else search, utf8, valid);
    SortIsAStableSort(entries, []);
    forall e | e in Sort(entries) ensures e in entries { assert e in multiset(Sort(entries)); }
    JoinParsesBack(Sort(entries), utf8);
    SortIsIdempotent(entries);
  }
}
