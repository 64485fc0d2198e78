/**
 * `Array<URLQueryItem>.init(_ dictionary:)`: one query item per dictionary
 * entry, named by the key and valued by the `description` of the value.
 * The values are `LosslessStringConvertible`; the app stores strings and
 * `Int`s in them.
 */
module QueryItems {
  import opened Wrappers

  datatype QueryValue = Text(s: string) | Integer(i: int)

  datatype QueryItem = QueryItem(name: string, value: string)

  predicate IsDigit(c: char)
  {
    '0' <= c <= '9'
  }

  function DigitChar(d: nat): (c: char)
    requires d < 10
    ensures IsDigit(c) && c as int - '0' as int == d
  {
    ('0' as int + d) as char
  }

  /** The decimal digits of `n`, most significant first, without leading zeros. */
  function NatDescription(n: nat): (r: string)
    ensures |r| >= 1
    ensures AllDigits(r)
    ensures r[0] == '0' ==> n == 0
    decreases n
  {
    if n < 10 then [DigitChar(n)] else NatDescription(n / 10) + [DigitChar(n % 10)]
  }

  /** `Int.description`: a minus sign for negative values, then the digits. */
  function IntDescription(i: int): (r: string)
    ensures |r| >= 1
    ensures i < 0 <==> r[0] == '-'
  {
    if i < 0 then "-" + NatDescription(-i) else NatDescription(i)
  }

  /** The value of a string of decimal digits. */
  predicate AllDigits(s: string)
  {
    forall k :: 0 <= k < |s| ==> IsDigit(s[k])
  }

  function DigitsValue(s: string): nat
    requires AllDigits(s)
    decreases |s|
  {
    if s == [] then 0
    else
      assert IsDigit(s[|s| - 1]);
      DigitsValue(s[..|s| - 1]) * 10 + (s[|s| - 1] as int - '0' as int)
  }

  /** `Int.init?(_ description:)`: an optional sign followed by at least one digit. */
  function ParseInt(s: string): (r: Option<int>)
    ensures AllDigits(s) && s != [] ==> r == Some(DigitsValue(s) as int)
  {
    var negative := |s| > 0 && s[0] == '-';
    var digits := if |s| > 0 && (s[0] == '-' || s[0] == '+') then s[1..] else s;
    if digits == [] || !AllDigits(digits) then None
    else if negative then Some(0 - DigitsValue(digits) as int)
    else Some(DigitsValue(digits))
  }

  lemma {:induction false} DigitsValueOfNatDescription(n: nat)
    ensures DigitsValue(NatDescription(n)) == n
    decreases n
  {
    if n >= 10 {
      var d := NatDescription(n);
      DigitsValueOfNatDescription(n / 10);
      assert d[..|d| - 1] == NatDescription(n / 10);
    }
  }

  /** The `LosslessStringConvertible` promise for `Int`: parsing the description gives the value back. */
  lemma IntDescriptionIsLossless(i: int)
    ensures ParseInt(IntDescription(i)) == Some(i)
  {
    if i < 0 {
      DigitsValueOfNatDescription(-i);
      assert IntDescription(i)[1..] == NatDescription(-i);
    } else {
      DigitsValueOfNatDescription(i);
    }
  }

  /** `description` of a dictionary value; a string describes itself. */
  function Description(v: QueryValue): (r: string)
    ensures v.Text? ==> r == v.s
    ensures v.Integer? ==> ParseInt(r) == Some(v.i)
  {
    match v
    case Text(s) => s
    case Integer(i) => IntDescriptionIsLossless(i); IntDescription(i)
  }

  /** `keys` lists every key of `d` exactly once: the order in which the dictionary happens to iterate. */
  ghost predicate EnumeratesKeys<V>(keys: seq<string>, d: map<string, V>)
  {
    && (forall k :: k in keys <==> k in d)
    && (forall a, b :: 0 <= a < b < |keys| ==> keys[a] != keys[b])
  }

  /** The `map` over the dictionary, in its iteration order `keys`. */
  function FromDictionary(d: map<string, QueryValue>, keys: seq<string>): (r: seq<QueryItem>)
    requires EnumeratesKeys(keys, d)
    ensures |r| == |keys|
    ensures forall j :: 0 <= j < |r| ==> r[j] == QueryItem(keys[j], Description(d[keys[j]]))
  {
    seq(|keys|, j requires 0 <= j < |keys| => QueryItem(keys[j], Description(d[keys[j]])))
  }

  lemma {:induction false} DistinctCardinality(keys: seq<string>)
    requires forall a, b :: 0 <= a < b < |keys| ==> keys[a] != keys[b]
    ensures |set k | k in keys| == |keys|
    decreases |keys|
  {
    if keys != [] {
      var last := keys[|keys| - 1];
      var init := keys[..|keys| - 1];
      DistinctCardinality(init);
      assert (set k | k in keys) == (set k | k in init) + {last};
      assert last !in init;
    }
  }

  /**
   * One item per entry: as many items as entries, every item named by a key and
   * valued by the description of that key's value, and every key naming exactly
   * one item, so no name repeats and nothing is added.
   */
  lemma FromDictionaryOneItemPerEntry(d: map<string, QueryValue>, keys: seq<string>)
    requires EnumeratesKeys(keys, d)
    ensures |FromDictionary(d, keys)| == |d|
    ensures forall it :: it in FromDictionary(d, keys) ==> it.name in d && it.value == Description(d[it.name])
    ensures forall k :: k in d ==> exists j :: 0 <= j < |keys| && FromDictionary(d, keys)[j].name == k
    ensures forall a, b :: 0 <= a < b < |FromDictionary(d, keys)| ==>
              FromDictionary(d, keys)[a].name != FromDictionary(d, keys)[b].name
  {
    DistinctCardinality(keys);
    assert (set k | k in keys) == d.Keys;
    var r := FromDictionary(d, keys);
    forall k | k in d ensures exists j :: 0 <= j < |keys| && r[j].name == k {
      var j :| 0 <= j < |keys| && keys[j] == k;
      assert r[j].name == k;
    }
  }
}
