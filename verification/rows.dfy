/**
 * Router rows and per-source field maps as the device model sees them.
 *
 * The router API returns every scalar as a string; a device starts with every
 * known field set to Python's `None`. A field value is therefore an
 * `Option<string>`, and a row or a per-source map is a `Fields` map.
 */
module Rows {

  datatype Option<+T> = None | Some(value: T)

  datatype Result<+T, +E> = Ok(value: T) | Err(error: E)

  /** Field name to value; `None` stands for Python's `None`. */
  type Fields = map<string, Option<string>>

  /** Python truthiness of a field value: present and not the empty string. */
  predicate Truthy(v: Option<string>)
  {
    v.Some? && v.value != ""
  }

  /** `d.get(k)`: the value stored at `k`, or `None` when `k` is absent. */
  function Get(m: Fields, k: string): Option<string>
  {
    if k in m then m[k] else None
  }

  /** `d.get(k, default)` */
  function GetOr(m: Fields, k: string, default: Option<string>): Option<string>
  {
    if k in m then m[k] else default
  }

  /** `all(d.values())`: every value in the map, extra keys included, is truthy. */
  predicate AllTruthy(m: Fields)
  {
    forall k | k in m :: Truthy(m[k])
  }

  /** `a or b or None` on two field values: the first truthy one, if any. */
  function FirstTruthy(a: Option<string>, b: Option<string>): (r: Option<string>)
    ensures r.Some? <==> Truthy(a) || Truthy(b)
    ensures r.Some? ==> Truthy(r) && (r == a || r == b)
    ensures Truthy(a) ==> r == a
  {
    if Truthy(a) then a else if Truthy(b) then b else None
  }

  /** `value or default`: the value when truthy, otherwise the literal default. */
  function OrDefault(v: Option<string>, default: string): (r: string)
    ensures Truthy(v) ==> r == v.value
    ensures !Truthy(v) ==> r == default
    ensures default != "" ==> r != ""
  {
    if Truthy(v) then v.value else default
  }

  /** `d.update(row)`: every key of `row` takes `row`'s value, every other key keeps its own. */
  function Update(m: Fields, row: Fields): (r: Fields)
    ensures r.Keys == m.Keys + row.Keys
    ensures forall k :: k in row ==> r[k] == row[k]
    ensures forall k :: k in m && k !in row ==> r[k] == m[k]
  {
    m + row
  }

  /** Applying the same row a second time changes nothing. */
  lemma UpdateIdempotent(m: Fields, row: Fields)
    ensures Update(Update(m, row), row) == Update(m, row)
  {
    var once := Update(m, row);
    var twice := Update(once, row);
    assert twice.Keys == once.Keys;
    forall k | k in twice
      ensures twice[k] == once[k]
    {
      if k !in row {
        assert k in m;
      }
    }
  }

  /** Python's `str.upper()` on one character, restricted to ASCII letters. */
  function UpperChar(c: char): (u: char)
    ensures !('a' <= u <= 'z')
  {
    if 'a' <= c <= 'z' then (c as int - ('a' as int - 'A' as int)) as char else c
  }

  /** Python's `str.upper()`, restricted to ASCII letters. */
  function Upper(s: string): (r: string)
    ensures |r| == |s|
    ensures forall i :: 0 <= i < |r| ==> !('a' <= r[i] <= 'z')
  {
    if s == [] then [] else [UpperChar(s[0])] + Upper(s[1..])
  }

  /** Upper-casing changes each character on its own and nothing else. */
  lemma {:induction false} UpperAt(s: string, i: int)
    requires 0 <= i < |s|
    ensures Upper(s)[i] == UpperChar(s[i])
  {
    if i > 0 {
      UpperAt(s[1..], i - 1);
    }
  }

  /** Upper-casing twice is upper-casing once. */
  lemma {:induction false} UpperIdempotent(s: string)
    ensures Upper(Upper(s)) == Upper(s)
  {
    if s != [] {
      UpperIdempotent(s[1..]);
      assert Upper(s)[1..] == Upper(s[1..]);
    }
  }

  /** Two strings that differ at most in the case of ASCII letters upper-case alike. */
  lemma {:induction false} UpperCaseInsensitive(s: string, t: string)
    requires |s| == |t|
    requires forall i :: 0 <= i < |s| ==> UpperChar(s[i]) == UpperChar(t[i])
    ensures Upper(s) == Upper(t)
  {
    if s != [] {
      assert UpperChar(s[0]) == UpperChar(t[0]);
      UpperCaseInsensitive(s[1..], t[1..]);
    }
  }

  /** Upper-cased strings agree exactly when the strings agree character by character up to case. */
  lemma UpperEqIff(s: string, t: string)
    ensures Upper(s) == Upper(t) <==>
      |s| == |t| && forall i :: 0 <= i < |s| ==> UpperChar(s[i]) == UpperChar(t[i])
  {
    if Upper(s) == Upper(t) {
      forall i | 0 <= i < |s|
        ensures UpperChar(s[i]) == UpperChar(t[i])
      {
        UpperAt(s, i);
        UpperAt(t, i);
      }
    }
    if |s| == |t| && forall i :: 0 <= i < |s| ==> UpperChar(s[i]) == UpperChar(t[i]) {
      UpperCaseInsensitive(s, t);
    }
  }
}
