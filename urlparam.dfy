/**
 * The route-parameter accessors, as functions of the route context's
 * parameter list: a name loses at most one leading ':', the value stored
 * under it is percent-decoded (an undecodable value reads as ""), and the
 * integer accessors parse that text in base 10, discarding the parse error.
 */
module UrlParam {
  import opened Encoding
  import opened Wrappers
  import opened Url
  import opened Strconv
  import opened Chi

  /** strings.TrimPrefix(p, ":"). */
  function TrimColon(p: Bytes): (key: Bytes)
    ensures |p| > 0 && p[0] == Colon ==> [Colon] + key == p
    ensures !(|p| > 0 && p[0] == Colon) ==> key == p
  {
    if |p| > 0 && p[0] == Colon then p[1..] else p
  }

  /** Params: the decoded value stored last under the trimmed name; "" if there is none or it does not decode. */
  function Params(params: seq<(Bytes, Bytes)>, p: Bytes): (s: Bytes)
    ensures |s| <= |LookupLast(params, TrimColon(p))|
    ensures PathUnescape(LookupLast(params, TrimColon(p))).None? ==> s == []
  {
    match PathUnescape(LookupLast(params, TrimColon(p)))
    case Some(v) => v
    case None => []
  }

  /** ParamsInt, on a platform where int has 64 bits. */
  function ParamsInt(params: seq<(Bytes, Bytes)>, p: Bytes): (n: int)
    ensures MinInt64 <= n <= MaxInt64
  {
    ParseInt(Params(params, p), 0).value
  }

  function ParamsInt64(params: seq<(Bytes, Bytes)>, p: Bytes): (n: int)
    ensures MinInt64 <= n <= MaxInt64
  {
    ParseInt(Params(params, p), 64).value
  }

  /** "id" and ":id" name the same parameter; "::id" names ":id". */
  lemma OneColonStripped(params: seq<(Bytes, Bytes)>, q: Bytes)
    ensures Params(params, [Colon] + q) ==
            match PathUnescape(LookupLast(params, q)) case Some(v) => v case None => []
    ensures !(|q| > 0 && q[0] == Colon) ==> Params(params, [Colon] + q) == Params(params, q)
  {
    assert ([Colon] + q)[1..] == q;
  }

  /** A stored value with no '%' is returned as it is stored. */
  lemma PlainValueVerbatim(params: seq<(Bytes, Bytes)>, p: Bytes)
    requires forall i | 0 <= i < |LookupLast(params, TrimColon(p))| :: LookupLast(params, TrimColon(p))[i] != Percent
    ensures Params(params, p) == LookupLast(params, TrimColon(p))
  {
    UnescapePlain(LookupLast(params, TrimColon(p)));
  }

  /** A decimal integer in the int64 range is read exactly by both integer accessors. */
  lemma ParamsIntExact(params: seq<(Bytes, Bytes)>, p: Bytes)
    requires IsDecimal(Params(params, p))
    requires MinInt64 <= DecimalValue(Params(params, p)) <= MaxInt64
    ensures ParamsInt(params, p) == DecimalValue(Params(params, p))
    ensures ParamsInt64(params, p) == DecimalValue(Params(params, p))
  {
    ParseIntExact(Params(params, p), 0);
    ParseIntExact(Params(params, p), 64);
  }

  /**
   * Text that is not a decimal integer (such as "abc", or an absent
   * parameter) reads as 0, never as an error, as long as it is short enough
   * that the digit loop cannot overflow first.
   */
  lemma ParamsIntRejects(params: seq<(Bytes, Bytes)>, p: Bytes)
    requires |Params(params, p)| <= 19 && !IsDecimal(Params(params, p))
    ensures ParamsInt(params, p) == 0 && ParamsInt64(params, p) == 0
  {
    ParseIntRejects(Params(params, p), 0);
    ParseIntRejects(Params(params, p), 64);
  }

  /** A decimal integer beyond int64 reads as the nearest bound, since the range error is discarded. */
  lemma ParamsIntClamps(params: seq<(Bytes, Bytes)>, p: Bytes)
    requires IsDecimal(Params(params, p)) && !(MinInt64 <= DecimalValue(Params(params, p)) <= MaxInt64)
    ensures ParamsInt64(params, p) == if DecimalValue(Params(params, p)) > 0 then MaxInt64 else MinInt64
    ensures ParamsInt(params, p) == ParamsInt64(params, p)
  {
    ParseIntClamps(Params(params, p), 0);
    ParseIntClamps(Params(params, p), 64);
  }

  /**
   * After SetParams(k, v) appends (TrimColon(k), PathEscape(v)), Params(k)
   * reads v back, and a name that trims to another key reads what it read before.
   */
  lemma ParamsAfterSet(params: seq<(Bytes, Bytes)>, k: Bytes, v: Bytes, p: Bytes)
    ensures Params(params + [(TrimColon(k), PathEscape(v))], k) == v
    ensures TrimColon(p) != TrimColon(k) ==>
              Params(params + [(TrimColon(k), PathEscape(v))], p) == Params(params, p)
  {
    LookupAfterAdd(params, TrimColon(k), PathEscape(v), TrimColon(p));
    PathRoundTrip(v);
  }
}
