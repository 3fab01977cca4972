/**
 * The `Authorization` header check of app.py: the header must be present and start with
 * "Bearer "; the token is the header with every "Bearer " occurrence removed, as
 * `str.replace('Bearer ', '')` does.
 */
module Bearer {

  import opened Wrappers

  const BEARER_PREFIX: string := "Bearer "

  predicate StartsWith(s: string, prefix: string)
  {
    |prefix| <= |s| && s[..|prefix|] == prefix
  }

  /** `pattern` occurs in `s` starting at position `i`. */
  predicate OccursAt(pattern: string, s: string, i: nat)
  {
    i <= |s| && StartsWith(s[i..], pattern)
  }

  /** `pattern` occurs somewhere in `s`. */
  predicate Occurs(pattern: string, s: string)
  {
    exists i: nat | i <= |s| :: OccursAt(pattern, s, i)
  }

  /** Python's `s.replace(pattern, '')`: scanning left to right, every non-overlapping occurrence is cut out. */
  function RemoveAll(s: string, pattern: string): (r: string)
    requires |pattern| > 0
    ensures |r| <= |s|
    decreases |s|
  {
    if |s| == 0 then ""
    else if StartsWith(s, pattern) then RemoveAll(s[|pattern|..], pattern)
    else [s[0]] + RemoveAll(s[1..], pattern)
  }

  /** A string that does not contain the pattern comes through unchanged. */
  lemma {:induction false} RemoveAllAbsent(s: string, pattern: string)
    requires |pattern| > 0
    requires !Occurs(pattern, s)
    ensures RemoveAll(s, pattern) == s
    decreases |s|
  {
    if |s| > 0 {
      assert !OccursAt(pattern, s, 0);
      assert !Occurs(pattern, s[1..]) by {
        forall i: nat ensures !OccursAt(pattern, s[1..], i) {
          assert !OccursAt(pattern, s, i + 1);
          if i <= |s[1..]| {
            assert s[1..][i..] == s[i + 1..];
          }
        }
      }
      RemoveAllAbsent(s[1..], pattern);
      assert s == [s[0]] + s[1..];
    }
  }

  /** For a header that starts with "Bearer ", the token is what follows it when the prefix does not recur. */
  lemma StripPrefix(header: string)
    requires StartsWith(header, BEARER_PREFIX)
    ensures |RemoveAll(header, BEARER_PREFIX)| <= |header| - |BEARER_PREFIX|
    ensures !Occurs(BEARER_PREFIX, header[|BEARER_PREFIX|..]) ==>
      RemoveAll(header, BEARER_PREFIX) == header[|BEARER_PREFIX|..]
  {
    assert RemoveAll(header, BEARER_PREFIX) == RemoveAll(header[|BEARER_PREFIX|..], BEARER_PREFIX);
    if !Occurs(BEARER_PREFIX, header[|BEARER_PREFIX|..]) {
      RemoveAllAbsent(header[|BEARER_PREFIX|..], BEARER_PREFIX);
    }
  }

  /**
   * The header check and token extraction: None (a 401) unless the header is present and
   * starts with "Bearer ". The token is never longer than what follows the prefix, and it is
   * exactly what follows the prefix when "Bearer " does not occur there again.
   */
  function BearerToken(header: Option<string>): (token: Option<string>)
    ensures token.Some? <==> header.Some? && StartsWith(header.value, BEARER_PREFIX)
    ensures token.Some? ==> |token.value| <= |header.value| - |BEARER_PREFIX|
    ensures token.Some? && !Occurs(BEARER_PREFIX, header.value[|BEARER_PREFIX|..]) ==>
      token.value == header.value[|BEARER_PREFIX|..]
  {
    match header
    case None => None
    case Some(h) =>
      if !StartsWith(h, BEARER_PREFIX) then None
      else
        StripPrefix(h);
        Some(RemoveAll(h, BEARER_PREFIX))
  }
}
