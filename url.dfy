/**
 * Percent-encoding as Go's net/url applies it to one path segment
 * (PathEscape and PathUnescape), following section 2.1 of RFC 3986: a byte
 * outside the unreserved set is written as '%' and two upper-case hex digits;
 * decoding accepts hex digits of either case and rejects a '%' that is not
 * followed by two of them.
 */
module Url {
  import opened Encoding
  import opened Wrappers

  predicate IsHex(c: byte) {
    (48 <= c <= 57) || (97 <= c <= 102) || (65 <= c <= 70)
  }

  function Unhex(c: byte): (d: nat)
    requires IsHex(c)
    ensures d < 16
  {
    if c <= 57 then (c - 48) as nat
    else if c >= 97 then (c - 87) as nat
    else (c - 55) as nat
  }

  /** The upper-case hex digit for d, the inverse of Unhex. */
  function UpperHex(d: nat): (c: byte)
    requires d < 16
    ensures IsHex(c) && Unhex(c) == d
    ensures c != Percent
  {
    if d < 10 then (48 + d) as byte else (55 + d) as byte
  }

  /**
   * The bytes PathEscape leaves as they are: the unreserved letters, digits
   * and marks "-_.~", and of the reserved ones those a path segment may
   * carry, "$&+:=@" (so '/', ';', ',' and '?' are escaped).
   */
  predicate PathSegmentSafe(c: byte) {
    || (97 <= c <= 122) || (65 <= c <= 90) || (48 <= c <= 57)
    || c == 45 || c == 95 || c == 46 || c == 126
    || c == 36 || c == 38 || c == 43 || c == 58 || c == 61 || c == 64
  }

  function EscapeByte(c: byte, safe: byte -> bool): (e: Bytes)
    ensures |e| == 1 || |e| == 3
  {
    if safe(c) then [c] else [Percent, UpperHex(c as nat / 16), UpperHex(c as nat % 16)]
  }

  /** Percent-encodes every byte that `safe` does not keep. */
  function Escape(s: Bytes, safe: byte -> bool): (r: Bytes)
    ensures |s| <= |r| <= 3 * |s|
  {
    if s == [] then [] else EscapeByte(s[0], safe) + Escape(s[1..], safe)
  }

  /** url.PathEscape: at most three bytes per byte, and PathUnescape gives the input back. */
  function PathEscape(s: Bytes): (r: Bytes)
    ensures |s| <= |r| <= 3 * |s|
    ensures PathUnescape(r) == Some(s)
  {
    UnescapeEscape(s, PathSegmentSafe);
    Escape(s, PathSegmentSafe)
  }

  /** url.PathUnescape: the decoded bytes, or None for a malformed escape. */
  function PathUnescape(s: Bytes): (r: Option<Bytes>)
    ensures r.Some? ==> |r.value| <= |s|
  {
    if s == [] then Some([])
    else if s[0] == Percent then
      if |s| < 3 || !IsHex(s[1]) || !IsHex(s[2]) then None
      else match PathUnescape(s[3..])
        case None => None
        case Some(t) => Some([(Unhex(s[1]) * 16 + Unhex(s[2])) as byte] + t)
    else match PathUnescape(s[1..])
      case None => None
      case Some(t) => Some([s[0]] + t)
  }

  /** Decoding undoes encoding, whatever bytes are kept, as long as '%' itself is escaped. */
  lemma {:induction false} UnescapeEscape(s: Bytes, safe: byte -> bool)
    requires !safe(Percent)
    ensures PathUnescape(Escape(s, safe)) == Some(s)
  {
    if s == [] {
    } else {
      var c := s[0];
      var rest := Escape(s[1..], safe);
      var e := EscapeByte(c, safe) + rest;
      assert Escape(s, safe) == e;
      UnescapeEscape(s[1..], safe);
      if safe(c) {
        assert e[0] == c && e[1..] == rest;
      } else {
        var hi, lo := c as nat / 16, c as nat % 16;
        assert e[0] == Percent && e[1] == UpperHex(hi) && e[2] == UpperHex(lo);
        assert e[3..] == rest;
        assert (Unhex(e[1]) * 16 + Unhex(e[2])) as byte == c;
      }
      assert [c] + s[1..] == s;
    }
  }

  /** The key property of SetParams: PathUnescape(PathEscape(v)) == v. */
  lemma PathRoundTrip(v: Bytes)
    ensures PathUnescape(PathEscape(v)) == Some(v)
  {
    UnescapeEscape(v, PathSegmentSafe);
  }

  /** A value with no '%' in it decodes to itself. */
  lemma {:induction false} UnescapePlain(s: Bytes)
    requires forall i | 0 <= i < |s| :: s[i] != Percent
    ensures PathUnescape(s) == Some(s)
  {
    if s != [] {
      UnescapePlain(s[1..]);
      assert [s[0]] + s[1..] == s;
    }
  }

  /** A value made only of kept bytes is not changed by escaping (Go returns it as it is). */
  lemma {:induction false} EscapeSafe(s: Bytes, safe: byte -> bool)
    requires forall i | 0 <= i < |s| :: safe(s[i])
    ensures Escape(s, safe) == s
  {
    if s != [] {
      EscapeSafe(s[1..], safe);
      assert [s[0]] + s[1..] == s;
    }
  }

  /** A '%' without two hex digits after it makes the whole value undecodable, after any well-formed prefix. */
  lemma {:induction false} UnescapeBadSuffix(prefix: Bytes, bad: Bytes)
    requires |bad| > 0 && bad[0] == Percent && (|bad| < 3 || !IsHex(bad[1]) || !IsHex(bad[2]))
    requires PathUnescape(prefix).Some?
    ensures PathUnescape(prefix + bad) == None
  {
    if prefix == [] {
      assert prefix + bad == bad;
    } else if prefix[0] == Percent {
      var s := prefix + bad;
      assert s[0] == Percent && s[1] == prefix[1] && s[2] == prefix[2];
      assert s[3..] == prefix[3..] + bad;
      UnescapeBadSuffix(prefix[3..], bad);
    } else {
      assert (prefix + bad)[0] == prefix[0];
      assert (prefix + bad)[1..] == prefix[1..] + bad;
      UnescapeBadSuffix(prefix[1..], bad);
    }
  }
}
