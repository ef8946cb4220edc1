/** The query string of a search request: its parameters, the allow-list
    of their keys and the formats their values are checked against. Both
    the search use case and its request validator read the query this way. */
module SearchQuery {
  import opened Wrappers
  import opened Text
  import opened Numbers

  /** One `key=value` pair of the query object. The pairs are the object's
      own properties in key order; every value is a string. */
  datatype Param = Param(key: string, value: string)

  type Query = seq<Param>

  const AllowedParams: seq<string> := ["order_id", "user_id", "start", "end", "page", "all"]

  /** What every error about unknown keys says first. */
  const NotAllowedText := "Parâmetro(s) não permitido(s)"
  const NotAllowedPrefix := NotAllowedText + ": "

  const OrderIdMessage := "order_id deve ser um número inteiro"
  const UserIdMessage := "user_id deve ser um número inteiro"

  /** `Object.keys(query)`. */
  function Keys(q: Query): (ks: seq<string>)
    ensures |ks| == |q|
    ensures forall i :: 0 <= i < |q| ==> ks[i] == q[i].key
  {
    seq(|q|, i requires 0 <= i < |q| => q[i].key)
  }

  /** `query[key]`: the value under `key`, or `undefined` (`None`). */
  function Get(q: Query, key: string): (v: Option<string>)
    ensures v.None? <==> key !in Keys(q)
    ensures v.Some? ==> Param(key, v.value) in q
  {
    if q == [] then None
    else if q[0].key == key then Some(q[0].value)
    else
      assert Keys(q) == [q[0].key] + Keys(q[1..]);
      Get(q[1..], key)
  }

  /** A query value that JavaScript reads as true: present and not "". */
  predicate Truthy(v: Option<string>) {
    v.Some? && v.value != ""
  }

  /** `queryKeys.filter((k) => !allowedParams.includes(k))`: the keys
      outside the allow-list, in key order. */
  function InvalidParams(q: Query): (bad: seq<string>)
    ensures |bad| <= |q|
    ensures forall k :: k in bad <==> k in Keys(q) && k !in AllowedParams
  {
    if q == [] then []
    else
      var rest := InvalidParams(q[..|q| - 1]);
      var k := q[|q| - 1].key;
      assert Keys(q) == Keys(q[..|q| - 1]) + [k];
      if k in AllowedParams then rest else rest + [k]
  }

  /** The error message naming every key outside the allow-list. */
  function NotAllowedMessage(bad: seq<string>): (m: string)
    ensures |m| >= |NotAllowedText| && m[..|NotAllowedText|] == NotAllowedText
  {
    NotAllowedPrefix + Join(bad, ", ")
  }

  /** The regular expression `^\d{4}-\d{2}-\d{2}$`. */
  predicate IsIsoDate(s: string) {
    |s| == 10
    && IsDigit(s[0]) && IsDigit(s[1]) && IsDigit(s[2]) && IsDigit(s[3])
    && s[4] == '-'
    && IsDigit(s[5]) && IsDigit(s[6])
    && s[7] == '-'
    && IsDigit(s[8]) && IsDigit(s[9])
  }

  /** Every key of the query is on the allow-list exactly when no key is
      reported as not allowed. */
  lemma NoInvalidParams(q: Query)
    ensures InvalidParams(q) == [] <==> forall i :: 0 <= i < |q| ==> q[i].key in AllowedParams
  {
    if InvalidParams(q) != [] {
      var k := InvalidParams(q)[0];
      assert k in InvalidParams(q);
      var i :| 0 <= i < |q| && Keys(q)[i] == k;
      assert q[i].key !in AllowedParams;
    }
  }

  /** The message about unknown keys is recognisable by its fixed text. */
  lemma NotAllowedMessageFlagged(bad: seq<string>)
    ensures Contains(NotAllowedMessage(bad), NotAllowedText)
  {
    assert OccursAt(NotAllowedMessage(bad), NotAllowedText, 0);
  }
}
