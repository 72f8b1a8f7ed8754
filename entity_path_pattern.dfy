/** The pattern `/5671\/(.*)\/\$management/i` that the connector applies to the
    address of an AMQP redirect, with JavaScript's matching rules: the match
    starts at the leftmost position where it can succeed, the greedy `(.*)`
    captures as much as it can, `.` matches any character but a line
    terminator, and the `i` flag compares letters without regard to case.
    Only ASCII letters are folded here. Without the `u` flag JavaScript also
    folds letters such as `é`/`É`, but it never folds a character at or above
    U+0080 onto an ASCII one, so against the all-ASCII `$management` the
    ASCII folding is exact. */
module EntityPathPattern {
  import opened JsValues

  const Port: string := "5671/"
  const Management: string := "$management"

  /** The characters `.` refuses without the `s` flag. */
  predicate LineTerminator(c: char)
  {
    c == '\n' || c == '\r' || c == '\U{2028}' || c == '\U{2029}'
  }

  /** Case-insensitive comparison of one address character with one pattern character. */
  predicate SameIgnoringCase(c: char, p: char)
  {
    c == p || ('a' <= p <= 'z' && c as int == p as int - 32)
  }

  /** "5671/" occurs in `a` at position `p`. */
  predicate PortAt(a: string, p: int)
  {
    0 <= p && p + |Port| <= |a| && a[p..p + |Port|] == Port
  }

  /** "/$management", in any letter case, occurs in `a` at position `j`. */
  predicate MarkerAt(a: string, j: int)
  {
    0 <= j && j + 1 + |Management| <= |a| && a[j] == '/'
    && forall k :: 0 <= k < |Management| ==> SameIgnoringCase(a[j + 1 + k], Management[k])
  }

  /** `(.*)` can capture `a[s..j]` and the rest of the pattern then matches at `j`. */
  predicate CaptureEndsAt(a: string, s: int, j: int)
  {
    0 <= s <= j && MarkerAt(a, j) && forall i :: s <= i < j ==> !LineTerminator(a[i])
  }

  /** The whole pattern matches with the port at `p` and the capture ending at `j`. */
  predicate MatchSpan(a: string, p: int, j: int)
  {
    PortAt(a, p) && CaptureEndsAt(a, p + |Port|, j)
  }

  /** Greedy backtracking of `(.*)` from position `s`: the largest end not after `j`. */
  function LongestCapture(a: string, s: nat, j: nat): (r: Option<nat>)
    requires s <= j <= |a|
    ensures r.Some? ==> s <= r.value <= j && CaptureEndsAt(a, s, r.value)
    ensures r.Some? ==> forall k :: r.value < k <= j ==> !CaptureEndsAt(a, s, k)
    ensures r.None? ==> forall k :: s <= k <= j ==> !CaptureEndsAt(a, s, k)
    decreases j
  {
    if CaptureEndsAt(a, s, j) then Some(j)
    else if j == s then None
    else LongestCapture(a, s, j - 1)
  }

  /** The regular-expression search from position `p` on: the first start that
      admits a match, and the greedy end of its capture. */
  function FirstMatch(a: string, p: nat): (r: Option<(nat, nat)>)
    ensures r.Some? ==> p <= r.value.0 && MatchSpan(a, r.value.0, r.value.1)
    ensures r.Some? ==> forall q, j :: p <= q < r.value.0 ==> !MatchSpan(a, q, j)
    ensures r.Some? ==> forall j :: r.value.1 < j ==> !MatchSpan(a, r.value.0, j)
    ensures r.None? ==> forall q, j :: p <= q ==> !MatchSpan(a, q, j)
    decreases |a| - p
  {
    if p + |Port| > |a| then None
    else if PortAt(a, p) && LongestCapture(a, p + |Port|, |a|).Some? then
      Some((p, LongestCapture(a, p + |Port|, |a|).value))
    else FirstMatch(a, p + 1)
  }

  /** The match JavaScript reports: the port at `p` is the leftmost one that
      admits a match, and `j` is the greedy end of its capture. */
  ghost predicate LeftmostGreedy(a: string, p: int, j: int)
  {
    && MatchSpan(a, p, j)
    && (forall q, k :: 0 <= q < p ==> !MatchSpan(a, q, k))
    && (forall k :: j < k ==> !MatchSpan(a, p, k))
  }

  /** Capture group 1 of `address.match(...)`, or None when the match is null. */
  function EntityPath(address: string): (r: Option<string>)
    ensures r.None? <==> forall p, j :: !MatchSpan(address, p, j)
    ensures r.Some? ==> exists p, j :: LeftmostGreedy(address, p, j) && r.value == address[p + |Port|..j]
  {
    match FirstMatch(address, 0)
    case None => None
    case Some((p, j)) =>
      assert LeftmostGreedy(address, p, j);
      Some(address[p + |Port|..j])
  }

  /** At most one match is the leftmost greedy one, so it alone decides the entity path. */
  lemma {:induction false} EntityPathIsLeftmostGreedy(a: string, p: int, j: int)
    requires LeftmostGreedy(a, p, j)
    ensures EntityPath(a) == Some(a[p + |Port|..j])
  {
    var r := EntityPath(a);
    assert r.Some?;
    var p', j' :| LeftmostGreedy(a, p', j') && r.value == a[p' + |Port|..j'];
    assert p' == p;
    assert j' == j;
  }

  /** No "5671/" anywhere in `s`. */
  predicate NoPort(s: string)
  {
    forall q :: 0 <= q < |s| ==> !PortAt(s, q)
  }

  /** "/$management" written in any letter case. */
  predicate IsManagementMarker(marker: string)
  {
    |marker| == |Management| && forall k :: 0 <= k < |Management| ==> SameIgnoringCase(marker[k], Management[k])
  }

  /** The port that opens a redirect address and the marker that closes it
      frame a match. */
  lemma RedirectAddressMatches(prefix: string, path: string, marker: string)
    requires IsManagementMarker(marker)
    requires forall i :: 0 <= i < |path| ==> !LineTerminator(path[i])
    ensures MatchSpan(prefix + Port + path + "/" + marker, |prefix|, |prefix| + |Port| + |path|)
  {
    var a := prefix + Port + path + "/" + marker;
    var P := |prefix|;
    var J := P + |Port| + |path|;
    assert a[P..P + |Port|] == Port;
    assert a[J..] == "/" + marker;
    forall k | 0 <= k < |Management| ensures SameIgnoringCase(a[J + 1 + k], Management[k]) {
      assert a[J + 1 + k] == a[J..][1 + k] == marker[k];
    }
    forall i | P + |Port| <= i < J ensures !LineTerminator(a[i]) {
      assert a[i] == path[i - P - |Port|];
    }
  }

  /** With no port inside the prefix, no port starts before the one after it:
      "5671/" cannot overlap itself. */
  lemma NoEarlierPort(prefix: string, rest: string, q: int)
    requires NoPort(prefix)
    requires 0 <= q < |prefix|
    ensures !PortAt(prefix + Port + rest, q)
  {
    var a := prefix + Port + rest;
    var P := |prefix|;
    if q + |Port| <= P {
      assert !PortAt(prefix, q);
      assert a[q..q + |Port|] == prefix[q..q + |Port|];
    } else if q + |Port| <= |a| {
      // "5671/" does not overlap itself: its '5' sits where the port would need another character
      assert a[q..q + |Port|][P - q] == a[P] == '5';
      assert Port[P - q] != '5';
    }
  }

  /** The shape of every redirect address: whatever precedes the port, then
      "5671/", the entity path and "/$management" in any letter case. The path
      comes back exactly, even when it is empty or itself contains "/$management". */
  lemma EntityPathOfRedirectAddress(a: string, prefix: string, path: string, marker: string)
    requires a == prefix + Port + path + "/" + marker
    requires IsManagementMarker(marker)
    requires NoPort(prefix)
    requires forall i :: 0 <= i < |path| ==> !LineTerminator(path[i])
    ensures EntityPath(a) == Some(path)
  {
    var P := |prefix|;
    var J := P + |Port| + |path|;
    RedirectAddressMatches(prefix, path, marker);
    forall q, k | 0 <= q < P ensures !MatchSpan(a, q, k) {
      NoEarlierPort(prefix, path + "/" + marker, q);
      assert prefix + Port + (path + "/" + marker) == a;
    }
    forall k | J < k ensures !MatchSpan(a, P, k) {
      assert !MarkerAt(a, k);
    }
    EntityPathIsLeftmostGreedy(a, P, J);
    assert a[P + |Port|..J] == path;
  }

  /** The documented example: a redirect to "myhub" on an Event Hubs host. */
  lemma EntityPathExample(address: string)
    requires address == "amqps://eh.example.com:5671/myhub/$management"
    ensures EntityPath(address) == Some("myhub")
  {
    var prefix := "amqps://eh.example.com:";
    assert NoPort(prefix) by {
      forall q | 0 <= q < |prefix| ensures !PortAt(prefix, q) {
        assert prefix[q] != Port[0];
      }
    }
    assert address == prefix + Port + "myhub" + "/" + Management;
    EntityPathOfRedirectAddress(address, prefix, "myhub", Management);
  }

  /** An address without "5671/" has no entity path. */
  lemma NoPortNoEntityPath(address: string)
    requires NoPort(address)
    ensures EntityPath(address) == None
  {
    forall p, j ensures !MatchSpan(address, p, j) {
      if 0 <= p < |address| {
        assert !PortAt(address, p);
      }
    }
  }
}
