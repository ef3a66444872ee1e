/** getCookieVal: reads one cookie out of a `Cookie` request header. */
module Cookie {
  import opened Wrappers
  import opened Text

  /** The header's `;`-separated segments, each trimmed. */
  function Segments(header: string): (segs: seq<string>)
    ensures |segs| == |Split(header, ';')|
    ensures forall i :: 0 <= i < |segs| ==> segs[i] == Trim(Split(header, ';')[i])
  {
    var parts := Split(header, ';');
    seq(|parts|, i requires 0 <= i < |parts| => Trim(parts[i]))
  }

  /**
   * getCookieVal(name, cookieHeader): a null or empty header has no cookies;
   * otherwise the value is what follows `name=` in the first trimmed segment
   * that starts with `name=`.
   */
  function GetCookieVal(name: string, header: Option<string>): (r: Option<string>)
    ensures header.None? || header.value == "" ==> r.None?
    ensures header.Some? ==>
      (r.Some? <==> exists i :: 0 <= i < |Segments(header.value)| && StartsWith(Segments(header.value)[i], name + "="))
    ensures r.Some? ==>
      (exists i :: 0 <= i < |Segments(header.value)|
        && StartsWith(Segments(header.value)[i], name + "=")
        && (forall j :: 0 <= j < i ==> !StartsWith(Segments(header.value)[j], name + "="))
        && r.value == Segments(header.value)[i][|name| + 1..])
  {
    if header.None? || header.value == "" then None
    else
      var segs := Segments(header.value);
      match FirstIndex(segs, (s: string) => StartsWith(s, name + "="))
      case None => None
      case Some(k) => Some(segs[k][|name| + 1..])
  }

  /** `name=value` contains no `;` and has no whitespace at either end. */
  lemma CookiePairShape(name: string, value: string)
    requires ';' !in name && ';' !in value
    requires name == [] || !IsWhitespace(name[0])
    requires value == [] || !IsWhitespace(value[|value| - 1])
    ensures ';' !in name + "=" + value
    ensures NoEdgeWhitespace(name + "=" + value)
    ensures StartsWith(name + "=" + value, name + "=")
    ensures (name + "=" + value)[|name| + 1..] == value
  {
  }

  /** The lookup over known segments: the first one carrying the prefix wins. */
  lemma LookupInSegments(name: string, header: string, segs: seq<string>, k: nat)
    requires header != "" && Segments(header) == segs
    requires k < |segs| && StartsWith(segs[k], name + "=")
    requires forall j :: 0 <= j < k ==> !StartsWith(segs[j], name + "=")
    ensures GetCookieVal(name, Some(header)) == Some(segs[k][|name| + 1..])
  {
  }

  /** A header holding just `name=value` yields `value` back. */
  lemma CookieRoundTrip(name: string, value: string)
    requires ';' !in name && ';' !in value
    requires name == [] || !IsWhitespace(name[0])
    requires value == [] || !IsWhitespace(value[|value| - 1])
    ensures GetCookieVal(name, Some(name + "=" + value)) == Some(value)
  {
    var h := name + "=" + value;
    CookiePairShape(name, value);
    SplitWithoutSeparator(h, ';');
    TrimFixesTrimmed(h);
    assert Segments(h) == [h];
    LookupInSegments(name, h, [h], 0);
  }

  /** A segment for another cookie placed first does not hide the wanted one. */
  lemma CookieAfterOtherCookie(name: string, other: string, value: string)
    requires ';' !in other && ';' !in name && ';' !in value
    requires !StartsWith(Trim(other), name + "=")
    requires name == [] || !IsWhitespace(name[0])
    requires value == [] || !IsWhitespace(value[|value| - 1])
    ensures GetCookieVal(name, Some(other + ";" + name + "=" + value)) == Some(value)
  {
    var cookie := name + "=" + value;
    var h := other + ";" + cookie;
    assert h == other + ";" + name + "=" + value;
    CookiePairShape(name, value);
    SplitWithoutSeparator(cookie, ';');
    SplitAfterFirstSeparator(other, cookie);
    TrimFixesTrimmed(cookie);
    assert Segments(h) == [Trim(other), cookie];
    LookupInSegments(name, h, [Trim(other), cookie], 1);
  }

  lemma {:induction false} SplitAfterFirstSeparator(a: string, b: string)
    requires ';' !in a
    ensures Split(a + ";" + b, ';') == [a] + Split(b, ';')
    decreases |a|
  {
    if a == [] {
      assert a + ";" + b == [';'] + b;
      assert ([';'] + b)[1..] == b;
    } else {
      assert ';' !in a[1..] by {
        forall k | 0 <= k < |a[1..]| ensures a[1..][k] != ';' { assert a[1..][k] == a[k + 1]; }
      }
      var s := a + ";" + b;
      assert s[0] == a[0] && s[0] != ';';
      assert s[1..] == a[1..] + ";" + b;
      SplitAfterFirstSeparator(a[1..], b);
      var rest := Split(s[1..], ';');
      assert rest == [a[1..]] + Split(b, ';');
      assert Split(s, ';') == [[s[0]] + rest[0]] + rest[1..];
      assert rest[0] == a[1..] && rest[1..] == Split(b, ';');
      assert [a[0]] + a[1..] == a;
    }
  }
}
