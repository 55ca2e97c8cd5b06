/**
 * PHP's ordered array, the shape a parsed compose document has: a sequence
 * of key/value entries in insertion order. Keys are integers or strings, and
 * a string that spells a canonical decimal integer is stored as an integer
 * key, as PHP does.
 */
module PhpArray {
  import opened Wrappers

  datatype Key = IntKey(n: int) | StrKey(s: string)

  /** The values a parsed YAML document holds (floats and booleans are not modelled). */
  datatype Value = Arr(entries: seq<Entry>) | Str(s: string) | Int(n: int) | Null

  datatype Entry = Entry(key: Key, value: Value)

  const MaxInt: int := 0x7fff_ffff_ffff_ffff
  const MinInt: int := -MaxInt - 1

  predicate IsDigit(c: char) { '0' <= c <= '9' }

  /** Digits without a superfluous leading zero: "0", "7", "443", not "080". */
  predicate IsCanonicalNat(s: string)
  {
    |s| >= 1 && (forall i :: 0 <= i < |s| ==> IsDigit(s[i])) && (s[0] == '0' ==> |s| == 1)
  }

  function DigitsValue(s: string): nat
    requires forall i :: 0 <= i < |s| ==> IsDigit(s[i])
  {
    if |s| == 0 then 0
    else
      assert IsDigit(s[|s| - 1]);
      10 * DigitsValue(s[..|s| - 1]) + (s[|s| - 1] as int - '0' as int)
  }

  /** The integer a key string is cast to, when PHP casts it. */
  function IntegerKey(s: string): Option<int>
  {
    if IsCanonicalNat(s) && DigitsValue(s) <= MaxInt then Some(DigitsValue(s))
    else if |s| >= 2 && s[0] == '-' && s[1] != '0' && IsCanonicalNat(s[1..])
            && DigitsValue(s[1..]) <= MaxInt + 1 then Some(0 - DigitsValue(s[1..]) as int)
    else None
  }

  /**
   * `$array[$s]`: the key a string subscript addresses. PHP casts the string
   * to an integer key exactly when it is the decimal spelling of a 64-bit
   * integer (see `ToKeyOfDecimal` for the converse).
   */
  function ToKey(s: string): (k: Key)
    ensures k.StrKey? ==> k.s == s
    ensures k.IntKey? ==> MinInt <= k.n <= MaxInt && Decimal(k.n) == s
    ensures (exists i :: 0 <= i < |s| && !IsDigit(s[i]) && s[i] != '-') ==> k == StrKey(s)
  {
    match IntegerKey(s)
    case Some(n) => DecimalOfIntegerKey(s); IntKey(n)
    case None => StrKey(s)
  }

  function DigitChar(d: nat): char
    requires d < 10
  {
    ('0' as int + d) as char
  }

  /** The decimal digits of `n`, without a leading zero. */
  function NatDigits(n: nat): string
    decreases n
  {
    if n < 10 then [DigitChar(n)] else NatDigits(n / 10) + [DigitChar(n % 10)]
  }

  /** How PHP spells an integer: its digits, after a `-` when it is negative. */
  function Decimal(n: int): string
  {
    if n >= 0 then NatDigits(n) else "-" + NatDigits(-n)
  }

  lemma {:induction false} NatDigitsCanonical(n: nat)
    ensures IsCanonicalNat(NatDigits(n)) && DigitsValue(NatDigits(n)) == n
    ensures n > 0 ==> NatDigits(n)[0] != '0'
    decreases n
  {
    if n >= 10 {
      NatDigitsCanonical(n / 10);
      var p := NatDigits(n / 10);
      var s := NatDigits(n);
      assert s[..|s| - 1] == p;
      assert s[0] == p[0];
    }
  }

  lemma {:induction false} CanonicalPositive(s: string)
    requires IsCanonicalNat(s) && s[0] != '0'
    ensures DigitsValue(s) >= 1
    decreases |s|
  {
    if |s| > 1 {
      var p := s[..|s| - 1];
      assert p[0] == s[0];
      CanonicalPositive(p);
    }
  }

  /** Reading canonical digits and spelling the value again gives the same digits. */
  lemma {:induction false} DigitsRoundTrip(s: string)
    requires IsCanonicalNat(s)
    ensures NatDigits(DigitsValue(s)) == s
    decreases |s|
  {
    if |s| > 1 {
      var p := s[..|s| - 1];
      assert p[0] == s[0];
      CanonicalPositive(p);
      DigitsRoundTrip(p);
      assert s == p + [s[|s| - 1]];
    }
  }

  /** A string PHP casts to an integer key is that integer's decimal spelling. */
  lemma DecimalOfIntegerKey(s: string)
    requires IntegerKey(s).Some?
    ensures MinInt <= IntegerKey(s).value <= MaxInt && Decimal(IntegerKey(s).value) == s
  {
    if IsCanonicalNat(s) && DigitsValue(s) <= MaxInt {
      DigitsRoundTrip(s);
    } else {
      var t := s[1..];
      assert t[0] == s[1];
      CanonicalPositive(t);
      DigitsRoundTrip(t);
      assert s == "-" + t;
    }
  }

  /** The decimal spelling of a 64-bit integer is cast to that integer. */
  lemma ToKeyOfDecimal(n: int)
    requires MinInt <= n <= MaxInt
    ensures ToKey(Decimal(n)) == IntKey(n)
  {
    if n >= 0 {
      NatDigitsCanonical(n);
    } else {
      NatDigitsCanonical(-n);
      var s := Decimal(n);
      assert !IsDigit(s[0]);
      assert s[1..] == NatDigits(-n);
      assert IntegerKey(s) == Some(n);
    }
  }

  predicate HasKey(es: seq<Entry>, k: Key)
  {
    exists i :: 0 <= i < |es| && es[i].key == k
  }

  /** Where key `k` sits. */
  function IndexOf(es: seq<Entry>, k: Key): (r: Option<nat>)
    ensures r.Some? ==> r.value < |es| && es[r.value].key == k
    ensures r.Some? ==> forall j :: 0 <= j < r.value ==> es[j].key != k
    ensures r.None? <==> !HasKey(es, k)
  {
    if |es| == 0 then None
    else if es[0].key == k then Some(0)
    else match IndexOf(es[1..], k)
      case None => None
      case Some(j) => Some(j + 1)
  }

  /** `$array[$k]` when it is set. */
  function Get(es: seq<Entry>, k: Key): Option<Value>
  {
    match IndexOf(es, k)
    case Some(i) => Some(es[i].value)
    case None => None
  }

  /** `$array[$k] = $v`: an existing key keeps its position, a new one goes last. */
  function Put(es: seq<Entry>, k: Key, v: Value): (r: seq<Entry>)
    ensures HasKey(es, k) ==> |r| == |es|
    ensures !HasKey(es, k) ==> r == es + [Entry(k, v)]
    ensures forall i :: 0 <= i < |es| ==> r[i].key == es[i].key
    ensures forall i :: 0 <= i < |es| && es[i].key != k ==> r[i] == es[i]
  {
    match IndexOf(es, k)
    case Some(i) => es[i := Entry(k, v)]
    case None => es + [Entry(k, v)]
  }

  /** `unset($array[$k])`: later entries keep their keys (no reindexing). */
  function Delete(es: seq<Entry>, k: Key): seq<Entry>
  {
    match IndexOf(es, k)
    case Some(i) => es[..i] + es[i + 1..]
    case None => es
  }

  /** The entries of `es` whose key is not `k`, in their order. */
  function Without(es: seq<Entry>, k: Key): (r: seq<Entry>)
    ensures forall e :: e in r <==> e in es && e.key != k
    ensures !HasKey(r, k)
  {
    if |es| == 0 then []
    else (if es[0].key == k then [] else [es[0]]) + Without(es[1..], k)
  }

  /**
   * The entries of `es` with their integer keys renumbered `next`,
   * `next + 1`, ... in order; string keys and all values stay.
   */
  function Renumber(es: seq<Entry>, next: int): (r: seq<Entry>)
    ensures |r| == |es|
    ensures forall i :: 0 <= i < |es| ==> r[i].value == es[i].value && r[i].key.IntKey? == es[i].key.IntKey?
    ensures forall i :: 0 <= i < |es| && es[i].key.StrKey? ==> r[i].key == es[i].key
    ensures forall i :: 0 <= i < |es| && r[i].key.IntKey? ==> r[i].key.n >= next
  {
    if |es| == 0 then []
    else if es[0].key.IntKey? then [Entry(IntKey(next), es[0].value)] + Renumber(es[1..], next + 1)
    else [es[0]] + Renumber(es[1..], next)
  }

  /** `array_slice($array, 0)`: a copy whose integer keys are renumbered from 0. */
  function Slice(es: seq<Entry>): seq<Entry>
  {
    Renumber(es, 0)
  }

  /** `[$k => $v] + $array`: the left operand wins a key clash. */
  function PrependUnion(k: Key, v: Value, es: seq<Entry>): seq<Entry>
  {
    [Entry(k, v)] + Without(es, k)
  }

  /** No key occurs twice: what every PHP array satisfies, at every level. */
  predicate DistinctKeys(es: seq<Entry>)
  {
    forall i, j :: 0 <= i < j < |es| ==> es[i].key != es[j].key
  }

  predicate WellFormed(v: Value)
  {
    match v
    case Arr(es) => DistinctKeys(es) && forall i :: 0 <= i < |es| ==> WellFormed(es[i].value)
    case _ => true
  }

  /** `(array) $value`: an array stays, null is empty, a scalar is wrapped at key 0. */
  function ToArray(v: Value): (es: seq<Entry>)
    ensures WellFormed(v) ==> WellFormed(Arr(es))
  {
    match v
    case Arr(es) => es
    case Null => []
    case _ => [Entry(IntKey(0), v)]
  }

  /** A literal list `[$a, $b, ...]`: keys 0, 1, ... in order. */
  function List(vs: seq<Value>): (v: Value)
    ensures v.Arr? && |v.entries| == |vs|
    ensures forall i :: 0 <= i < |vs| ==> v.entries[i] == Entry(IntKey(i), vs[i])
  {
    Arr(seq(|vs|, i requires 0 <= i < |vs| => Entry(IntKey(i), vs[i])))
  }

  // ---- Reading back what was written ----

  lemma GetPutSame(es: seq<Entry>, k: Key, v: Value)
    ensures Get(Put(es, k, v), k) == Some(v)
  {
    var r := Put(es, k, v);
    match IndexOf(es, k)
    case Some(i) => assert IndexOf(r, k) == Some(i);
    case None =>
      assert r[|es|].key == k;
      assert IndexOf(r, k) == Some(|es|);
  }

  lemma GetPutOther(es: seq<Entry>, k: Key, v: Value, k': Key)
    requires k' != k
    ensures Get(Put(es, k, v), k') == Get(es, k')
  {
    var r := Put(es, k, v);
    match IndexOf(es, k')
    case Some(i) => assert IndexOf(r, k') == Some(i);
    case None => assert !HasKey(r, k');
  }

  /** Looking past a first entry with another key. */
  lemma GetTail(es: seq<Entry>, k: Key)
    requires |es| > 0 && es[0].key != k
    ensures Get(es, k) == Get(es[1..], k)
  {
  }

  /** Writing back the value a key already has changes nothing. */
  lemma PutExisting(es: seq<Entry>, k: Key, v: Value)
    requires Get(es, k) == Some(v)
    ensures Put(es, k, v) == es
  {
  }

  /** A later write to the same key overwrites an earlier one in place. */
  lemma PutPut(es: seq<Entry>, k: Key, v: Value, w: Value)
    ensures Put(Put(es, k, v), k, w) == Put(es, k, w)
  {
    var r := Put(es, k, v);
    match IndexOf(es, k)
    case Some(i) => assert IndexOf(r, k) == Some(i);
    case None =>
      assert r[|es|].key == k;
      assert IndexOf(r, k) == Some(|es|);
  }

  /** Writes to two different keys that are both present commute. */
  lemma PutCommute(es: seq<Entry>, k: Key, v: Value, k': Key, v': Value)
    requires k != k' && HasKey(es, k)
    ensures Put(Put(es, k, v), k', v') == Put(Put(es, k', v'), k, v)
  {
    var i := IndexOf(es, k).value;
    var a := Put(es, k, v);
    var b := Put(es, k', v');
    assert a == es[i := Entry(k, v)];
    IndexOfSameKeys(a, es, k');
    match IndexOf(es, k')
    case Some(j) =>
      assert b == es[j := Entry(k', v')];
      IndexOfSameKeys(b, es, k);
      assert Put(a, k', v') == a[j := Entry(k', v')];
      assert Put(b, k, v) == b[i := Entry(k, v)];
      UpdatesCommute(es, i, Entry(k, v), j, Entry(k', v'));
    case None =>
      assert b == es + [Entry(k', v')];
      assert b[i] == es[i];
      assert IndexOf(b, k) == Some(i);
      assert Put(a, k', v') == a + [Entry(k', v')];
      assert Put(b, k, v) == b[i := Entry(k, v)];
      UpdateThenAppend(es, i, Entry(k, v), Entry(k', v'));
  }

  lemma UpdatesCommute(es: seq<Entry>, i: nat, x: Entry, j: nat, y: Entry)
    requires i < |es| && j < |es| && i != j
    ensures es[i := x][j := y] == es[j := y][i := x]
  {
  }

  lemma UpdateThenAppend(es: seq<Entry>, i: nat, x: Entry, y: Entry)
    requires i < |es|
    ensures es[i := x] + [y] == (es + [y])[i := x]
  {
  }

  /** Two lists with the same keys in the same places find a key at the same place. */
  lemma {:induction false} IndexOfSameKeys(a: seq<Entry>, b: seq<Entry>, k: Key)
    requires |a| == |b| && forall n :: 0 <= n < |a| ==> a[n].key == b[n].key
    ensures IndexOf(a, k) == IndexOf(b, k)
    decreases |a|
  {
    if |a| > 0 {
      IndexOfSameKeys(a[1..], b[1..], k);
    }
  }

  /** Deleting the key of an entry that sits between two key-free stretches removes just that entry. */
  lemma DeleteBetween(a: seq<Entry>, e: Entry, b: seq<Entry>)
    requires !HasKey(a, e.key)
    ensures Delete(a + [e] + b, e.key) == a + b
  {
    var s := a + [e] + b;
    assert s[|a|].key == e.key;
    assert IndexOf(s, e.key) == Some(|a|);
    assert s[..|a|] == a && s[|a| + 1..] == b;
  }

  /** Filtering out a key that does not occur changes nothing. */
  lemma WithoutAbsent(es: seq<Entry>, k: Key)
    requires !HasKey(es, k)
    ensures Without(es, k) == es
  {
    if |es| > 0 {
      assert !HasKey(es[1..], k);
      WithoutAbsent(es[1..], k);
    }
  }

  /** Prepending the same entry a second time changes nothing: `[$k => $v] + $array` is idempotent. */
  lemma {:induction false} PrependUnionAgain(k: Key, v: Value, es: seq<Entry>)
    ensures PrependUnion(k, v, PrependUnion(k, v, es)) == PrependUnion(k, v, es)
  {
    var u := PrependUnion(k, v, es);
    assert u[1..] == Without(es, k);
    assert Without(u, k) == Without(u[1..], k);
    WithoutAbsent(Without(es, k), k);
  }

  // ---- array_slice ----

  /** `$array[$k] = $v` on an array whose first key is not `k` leaves that first entry alone. */
  lemma PutCons(e: Entry, es: seq<Entry>, k: Key, v: Value)
    requires e.key != k
    ensures Put([e] + es, k, v) == [e] + Put(es, k, v)
  {
    assert ([e] + es)[1..] == es;
    match IndexOf(es, k)
    case Some(i) =>
      assert IndexOf([e] + es, k) == Some(i + 1);
    case None =>
      assert IndexOf([e] + es, k) == None;
  }

  /** Renumbering keeps the keys distinct. */
  lemma {:induction false} RenumberDistinct(es: seq<Entry>, next: int)
    requires DistinctKeys(es)
    ensures DistinctKeys(Renumber(es, next))
    decreases |es|
  {
    if |es| > 0 {
      var tail := es[1..];
      assert DistinctKeys(tail) by {
        forall i, j | 0 <= i < j < |tail| ensures tail[i].key != tail[j].key {
          assert tail[i] == es[i + 1] && tail[j] == es[j + 1];
        }
      }
      if es[0].key.IntKey? {
        RenumberDistinct(tail, next + 1);
        FirstKeyFresh(Entry(IntKey(next), es[0].value), Renumber(tail, next + 1));
      } else {
        RenumberDistinct(tail, next);
        var rest := Renumber(tail, next);
        forall j | 0 <= j < |rest| ensures rest[j].key != es[0].key {
          if rest[j].key.StrKey? {
            assert rest[j].key == tail[j].key == es[j + 1].key;
          }
        }
        FirstKeyFresh(es[0], rest);
      }
    }
  }

  /** Putting an entry with a fresh key in front keeps keys distinct. */
  lemma FirstKeyFresh(e: Entry, es: seq<Entry>)
    requires DistinctKeys(es) && forall j :: 0 <= j < |es| ==> es[j].key != e.key
    ensures DistinctKeys([e] + es)
  {
    var r := [e] + es;
    forall i, j | 0 <= i < j < |r| ensures r[i].key != r[j].key {
      assert r[j] == es[j - 1];
      if i > 0 {
        assert r[i] == es[i - 1];
      }
    }
  }

  /** `array_slice` of a well-formed array is well-formed. */
  lemma SliceWellFormed(es: seq<Entry>)
    requires WellFormed(Arr(es))
    ensures WellFormed(Arr(Slice(es)))
  {
    RenumberDistinct(es, 0);
  }

  /** Renumbering commutes with writing a string key. */
  lemma {:induction false} RenumberPut(es: seq<Entry>, next: int, s: string, v: Value)
    ensures Renumber(Put(es, StrKey(s), v), next) == Put(Renumber(es, next), StrKey(s), v)
    decreases |es|
  {
    var k := StrKey(s);
    if |es| == 0 {
      assert Put(es, k, v) == [Entry(k, v)];
      assert Renumber([Entry(k, v)], next) == [Entry(k, v)] + Renumber([], next);
    } else if es[0].key == k {
      RenumberPutFirst(es, next, k, v);
    } else {
      var tail := es[1..];
      var n' := if es[0].key.IntKey? then next + 1 else next;
      var e' := if es[0].key.IntKey? then Entry(IntKey(next), es[0].value) else es[0];
      assert es == [es[0]] + tail;
      PutCons(es[0], tail, k, v);
      RenumberPut(tail, n', s, v);
      var put := Put(es, k, v);
      assert put[0] == es[0] && put[1..] == Put(tail, k, v);
      assert Renumber(put, next) == [e'] + Renumber(Put(tail, k, v), n');
      assert Renumber(es, next) == [e'] + Renumber(tail, next + (if es[0].key.IntKey? then 1 else 0));
      PutCons(e', Renumber(tail, n'), k, v);
    }
  }

  /** Renumbering commutes with overwriting the first entry under its string key. */
  lemma RenumberPutFirst(es: seq<Entry>, next: int, k: Key, v: Value)
    requires |es| > 0 && es[0].key == k && k.StrKey?
    ensures Renumber(Put(es, k, v), next) == Put(Renumber(es, next), k, v)
  {
    var tail := es[1..];
    PutHead(es, k, v);
    RenumberStrHead(Entry(k, v), tail, next);
    assert es == [es[0]] + tail;
    RenumberStrHead(es[0], tail, next);
    PutHead(Renumber(es, next), k, v);
  }

  lemma PutHead(es: seq<Entry>, k: Key, v: Value)
    requires |es| > 0 && es[0].key == k
    ensures Put(es, k, v) == [Entry(k, v)] + es[1..]
  {
    assert IndexOf(es, k) == Some(0);
  }

  lemma RenumberStrHead(e: Entry, es: seq<Entry>, next: int)
    requires e.key.StrKey?
    ensures Renumber([e] + es, next) == [e] + Renumber(es, next)
  {
    assert ([e] + es)[1..] == es;
  }

  /** The number of entries with an integer key. */
  function IntKeyCount(es: seq<Entry>): nat
  {
    if |es| == 0 then 0 else (if es[0].key.IntKey? then 1 else 0) + IntKeyCount(es[1..])
  }

  /**
   * The integer keys are renumbered `next`, `next + 1`, ... in the order
   * they occur: an entry gets `next` plus the number of integer keys before it.
   */
  lemma {:induction false} RenumberInOrder(es: seq<Entry>, next: int)
    ensures forall i :: 0 <= i < |es| && es[i].key.IntKey? ==>
      Renumber(es, next)[i].key == IntKey(next + IntKeyCount(es[..i]))
    decreases |es|
  {
    if |es| > 0 {
      var n' := if es[0].key.IntKey? then next + 1 else next;
      RenumberInOrder(es[1..], n');
      var r := Renumber(es, next);
      assert r[1..] == Renumber(es[1..], n');
      forall i | 0 < i < |es| && es[i].key.IntKey?
        ensures r[i].key == IntKey(next + IntKeyCount(es[..i]))
      {
        assert es[..i][1..] == es[1..][..i - 1];
        assert es[1..][i - 1] == es[i];
        assert r[i] == Renumber(es[1..], n')[i - 1];
      }
      assert es[..0] == [];
    }
  }

  /** Renumbering twice is renumbering once. */
  lemma {:induction false} RenumberAgain(es: seq<Entry>, next: int)
    ensures Renumber(Renumber(es, next), next) == Renumber(es, next)
    decreases |es|
  {
    if |es| > 0 {
      var r := Renumber(es, next);
      var n' := if es[0].key.IntKey? then next + 1 else next;
      RenumberAgain(es[1..], n');
      assert r[1..] == Renumber(es[1..], n');
    }
  }

  /** A string key reads the same before and after renumbering. */
  lemma {:induction false} GetRenumber(es: seq<Entry>, next: int, s: string)
    ensures Get(Renumber(es, next), StrKey(s)) == Get(es, StrKey(s))
    decreases |es|
  {
    if |es| > 0 {
      var n' := if es[0].key.IntKey? then next + 1 else next;
      var r := Renumber(es, next);
      GetRenumber(es[1..], n', s);
      assert r[1..] == Renumber(es[1..], n');
      if es[0].key != StrKey(s) {
        GetTail(es, StrKey(s));
        GetTail(r, StrKey(s));
      }
    }
  }
}
