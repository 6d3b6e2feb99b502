/** Values as the PHP code sees them once Composer has decoded a package's
    `extra` section from JSON: scalars and ordered, key-unique arrays. */
module PhpValues {

  datatype Option<+T> = None | Some(value: T)

  /** A decoded JSON value. PHP arrays keep their insertion order; keys are
      modelled as strings (see README, "Left out"). */
  datatype Value =
    | Null
    | Bool(b: bool)
    | Int(i: int)
    | Str(s: string)
    | Arr(entries: seq<(string, Value)>)

  /** An ordered PHP array with string keys. */
  type PhpArray = seq<(string, Value)>

  /** PHP arrays never hold a key twice. */
  predicate UniqueKeys(a: PhpArray) {
    forall i, j :: 0 <= i < j < |a| ==> a[i].0 != a[j].0
  }

  /** `$a[$k]`: the value stored under `k`, if any. */
  function Lookup(a: PhpArray, k: string): (r: Option<Value>)
    ensures r.Some? ==> (k, r.value) in a
    ensures r.None? ==> forall e :: e in a ==> e.0 != k
  {
    if a == [] then None
    else if a[0].0 == k then Some(a[0].1)
    else Lookup(a[1..], k)
  }

  /** `isset($a[$k])`: the key is present and its value is not null. */
  predicate IsSet(a: PhpArray, k: string) {
    Lookup(a, k).Some? && !Lookup(a, k).value.Null?
  }

  /** In a key-unique array, `isset` holds exactly when some entry has the
      key and a non-null value. */
  lemma IsSetIff(a: PhpArray, k: string)
    requires UniqueKeys(a)
    ensures IsSet(a, k) <==> exists v :: (k, v) in a && !v.Null?
  {
  }

  /** In a key-unique array, every entry is what a lookup of its key finds. */
  lemma LookupFindsMember(a: PhpArray, e: (string, Value))
    requires UniqueKeys(a)
    requires e in a
    ensures Lookup(a, e.0) == Some(e.1)
  {
  }

  /** A canonical decimal numeral: digits only, at least one, and no
      leading zero unless the numeral is "0". */
  predicate IsDecimal(s: string) {
    && |s| >= 1
    && (forall j :: 0 <= j < |s| ==> '0' <= s[j] <= '9')
    && (|s| > 1 ==> s[0] != '0')
  }

  /** The number a string of decimal digits denotes, read left to right. */
  function DecimalValue(s: string): nat {
    if s == [] then 0
    else
      var c := s[|s| - 1] as int - '0' as int;
      DecimalValue(s[..|s| - 1]) * 10 + (if 0 <= c <= 9 then c else 0)
  }

  /** Decimal digits of a natural number, which read back as that number. */
  function Digits(n: nat): (r: string)
    ensures IsDecimal(r) && DecimalValue(r) == n
    ensures n > 0 ==> r[0] != '0'
    decreases n
  {
    var d := ('0' as int + n % 10) as char;
    if n < 10 then [d]
    else
      var prefix := Digits(n / 10);
      assert (prefix + [d])[..|prefix|] == prefix;
      prefix + [d]
  }

  /** PHP's conversion of a value to string, as done by `.` and by `%s` in
      `sprintf`: null and false give "", true gives "1", an array gives
      "Array". */
  function ToPhpString(v: Value): (r: string)
    ensures v.Int? && v.i >= 0 ==> IsDecimal(r) && DecimalValue(r) == v.i
    ensures v.Int? && v.i < 0 ==>
      |r| >= 2 && r[0] == '-' && IsDecimal(r[1..]) && DecimalValue(r[1..]) == -v.i
    ensures v.Str? ==> r == v.s
    ensures v.Null? || v == Bool(false) ==> r == ""
    ensures v == Bool(true) ==> r == "1"
    ensures v.Arr? ==> r == "Array"
  {
    match v
    case Null => ""
    case Bool(b) => if b then "1" else ""
    case Int(i) => if i < 0 then "-" + Digits(-i) else Digits(i)
    case Str(s) => s
    case Arr(_) => "Array"
  }

  /** A prefix one longer is the shorter prefix and the next element. */
  lemma PrefixExtend<T>(s: seq<T>, i: nat)
    requires i < |s|
    ensures s[..i + 1] == s[..i] + [s[i]]
  {
  }

  /** Concatenation regroups freely; stated once so that proofs about
      logs built piece by piece need not rediscover it. */
  lemma AppendAssoc<T>(a: seq<T>, b: seq<T>, c: seq<T>)
    ensures (a + b) + c == a + (b + c)
  {
  }
}
