/** The request feature extractor of ai-service/model.py: a request record
    is mapped to a fixed vector of seven counts, in the slot order method,
    url_len, url_depth, url_digits, url_special, ua_len, ua_digits. */
module Features {
  import opened Wrappers
  import opened Text

  /** The HTTP method table, listed in code order: the name at position i has code i. */
  const MethodNames: seq<string> :=
    ["GET", "POST", "PUT", "DELETE", "HEAD", "OPTIONS", "CONNECT", "TRACE", "PATCH"]

  /** The `METHODS` dictionary. */
  const Methods: map<string, nat> :=
    map["GET" := 0, "POST" := 1, "PUT" := 2, "DELETE" := 3, "HEAD" := 4,
        "OPTIONS" := 5, "CONNECT" := 6, "TRACE" := 7, "PATCH" := 8]

  /** Slot positions in the feature vector. */
  const MethodSlot := 0
  const UrlLenSlot := 1
  const UrlDepthSlot := 2
  const UrlDigitsSlot := 3
  const UrlSpecialSlot := 4
  const UaLenSlot := 5
  const UaDigitsSlot := 6
  const FeatureCount := 7

  /** A request record; a field the record does not carry is `None`. */
  datatype Request = Request(url: Option<string>, httpMethod: Option<string>, userAgent: Option<string>)

  /** The dictionary and the list describe the same nine methods. */
  lemma MethodTableAgrees()
    ensures forall m :: m in Methods <==> m in MethodNames
    ensures forall k :: 0 <= k < |MethodNames| ==> Methods[MethodNames[k]] == k
  {
    assert forall m :: m in MethodNames <==> exists k :: 0 <= k < |MethodNames| && MethodNames[k] == m;
  }

  /** `METHODS.get(method.upper(), 0)`: the code of a known method name,
      compared case-insensitively, and 0 (the code of GET) for any other. */
  function MethodIndex(httpMethod: string): (code: nat)
    ensures code < |MethodNames|
    ensures Upper(httpMethod) in MethodNames ==> MethodNames[code] == Upper(httpMethod)
    ensures Upper(httpMethod) !in MethodNames ==> code == 0
  {
    MethodTableAgrees();
    var m := Upper(httpMethod);
    if m in Methods then Methods[m] else 0
  }

  /** The number of characters of `s` that satisfy `p` (`sum(p(c) for c in s)`). */
  function Count(s: string, p: char -> bool): (n: nat)
    ensures n <= |s|
    decreases |s|
  {
    if s == [] then 0 else Count(s[..|s| - 1], p) + (if p(s[|s| - 1]) then 1 else 0)
  }

  predicate IsSlash(c: char) {
    c == '/'
  }

  /** A character `url_special` counts: neither letter nor digit. */
  predicate IsSpecial(c: char) {
    !IsAlnum(c)
  }

  /** `extract_features`: the seven features of a request, a missing url or
      user agent read as "" and a missing method as "GET". Every slot is
      bounded as the counts' meanings demand: the method code is a table
      position; the slashes are among the special characters; digits and
      special characters are disjoint parts of the url; the user agent's
      digits are among its characters. (The source casts the vector to
      float32, which is exact for counts below 2^24.) */
  function ExtractFeatures(r: Request): (v: seq<nat>)
    ensures |v| == FeatureCount
    ensures v[MethodSlot] < |MethodNames|
    ensures v[UrlDepthSlot] <= v[UrlSpecialSlot]
    ensures v[UrlDigitsSlot] + v[UrlSpecialSlot] <= v[UrlLenSlot]
    ensures v[UaDigitsSlot] <= v[UaLenSlot]
  {
    var url := r.url.GetOr("");
    var httpMethod := r.httpMethod.GetOr("GET");
    var ua := r.userAgent.GetOr("");
    SlashesAreSpecial(url);
    DigitsAndSpecialDisjoint(url);
    [MethodIndex(httpMethod), |url|, Count(url, IsSlash), Count(url, IsDigit),
     Count(url, IsSpecial), |ua|, Count(ua, IsDigit)]
  }

  // ---------------------------------------------------------------------
  // Counting
  // ---------------------------------------------------------------------

  /** Counting distributes over concatenation. */
  lemma {:induction false} CountAppend(a: string, b: string, p: char -> bool)
    ensures Count(a + b, p) == Count(a, p) + Count(b, p)
    decreases |b|
  {
    if b == [] {
      assert a + b == a;
    } else {
      var b' := b[..|b| - 1];
      assert (a + b)[..|a + b| - 1] == a + b';
      CountAppend(a, b', p);
    }
  }

  /** A class no character of `s` is in counts nothing. */
  lemma {:induction false} CountNone(s: string, p: char -> bool)
    requires forall i :: 0 <= i < |s| ==> !p(s[i])
    ensures Count(s, p) == 0
    decreases |s|
  {
    if s != [] {
      CountNone(s[..|s| - 1], p);
    }
  }

  /** A weaker class never counts more characters than a stronger one. */
  lemma {:induction false} CountMonotone(s: string, p: char -> bool, q: char -> bool)
    requires forall c :: p(c) ==> q(c)
    ensures Count(s, p) <= Count(s, q)
    decreases |s|
  {
    if s != [] {
      CountMonotone(s[..|s| - 1], p, q);
    }
  }

  /** Every `/` of the url is a special character: url_depth <= url_special. */
  lemma SlashesAreSpecial(url: string)
    ensures Count(url, IsSlash) <= Count(url, IsSpecial)
  {
    SlashIsNotAlnum();
    CountMonotone(url, IsSlash, IsSpecial);
  }

  /** A digit is alphanumeric, so no character is counted both as a digit
      and as special: url_digits + url_special <= url_len. */
  lemma {:induction false} DigitsAndSpecialDisjoint(url: string)
    ensures Count(url, IsDigit) + Count(url, IsSpecial) <= |url|
    decreases |url|
  {
    if url != [] {
      DigitIsAlnum(url[|url| - 1]);
      DigitsAndSpecialDisjoint(url[..|url| - 1]);
    }
  }

  // ---------------------------------------------------------------------
  // Properties of the extractor
  // ---------------------------------------------------------------------

  /** A missing method is read as "GET": it gets GET's code, 0, and
      a method not in the table gets that same code. */
  lemma UnknownMethodIsGet(r: Request)
    ensures r.httpMethod.None? ==> ExtractFeatures(r)[MethodSlot] == MethodIndex("GET") == 0
    ensures r.httpMethod.Some? && Upper(r.httpMethod.value) !in MethodNames ==>
              ExtractFeatures(r)[MethodSlot] == MethodIndex("GET") == 0
  {
    assert Upper("GET") == "GET";
  }

  /** The method code ignores case: upper-casing the method first changes nothing. */
  lemma MethodIndexIgnoresCase(httpMethod: string)
    ensures MethodIndex(Upper(httpMethod)) == MethodIndex(httpMethod)
  {
    UpperIdempotent(httpMethod);
  }

  /** Two spellings of a method that differ only in the case of their
      letters get the same code. */
  lemma MethodIndexOfCaseVariant(a: string, b: string)
    requires |a| == |b|
    requires forall i :: 0 <= i < |a| ==> a[i] == b[i] || LowerChar(a[i]) == LowerChar(b[i])
    ensures MethodIndex(a) == MethodIndex(b)
  {
    UpperIgnoresCase(a, b);
  }

  /** The method slot holds the method's code, `METHODS.get(method.upper(), 0)`:
      a method naming table position k in any letter case gets code k (so
      "post" and "POST" both give 1), and upper-casing the method first
      leaves the slot unchanged. */
  lemma MethodSlotCode(r: Request, k: nat)
    ensures ExtractFeatures(r)[MethodSlot] == MethodIndex(r.httpMethod.GetOr("GET"))
    ensures r.httpMethod.Some? && k < |MethodNames| && Upper(r.httpMethod.value) == MethodNames[k] ==>
              ExtractFeatures(r)[MethodSlot] == k
    ensures r.httpMethod.Some? ==>
              ExtractFeatures(r.(httpMethod := Some(Upper(r.httpMethod.value))))[MethodSlot] == ExtractFeatures(r)[MethodSlot]
  {
    if r.httpMethod.Some? {
      MethodIndexIgnoresCase(r.httpMethod.value);
    }
  }

  /** "post", in any letter case, gives code 1. */
  lemma PostIsOne(url: Option<string>, httpMethod: string, ua: Option<string>)
    requires Upper(httpMethod) == "POST"
    ensures ExtractFeatures(Request(url, Some(httpMethod), ua))[MethodSlot] == 1
  {
  }

  /** A missing url zeroes the four url slots; a missing user agent the two
      user-agent slots. */
  lemma MissingFieldsGiveZero(r: Request)
    ensures r.url.None? ==> ExtractFeatures(r)[UrlLenSlot..UaLenSlot] == [0, 0, 0, 0]
    ensures r.userAgent.None? ==> ExtractFeatures(r)[UaLenSlot..] == [0, 0]
  {
  }

  /** The four url slots add up over a url made of two parts: url_len,
      url_depth, url_digits and url_special of the whole are the sums of
      those of the parts. */
  lemma {:induction false} UrlSlotsAdd(httpMethod: Option<string>, ua: Option<string>, a: string, b: string)
    ensures var v := ExtractFeatures(Request(Some(a + b), httpMethod, ua));
            var va := ExtractFeatures(Request(Some(a), httpMethod, ua));
            var vb := ExtractFeatures(Request(Some(b), httpMethod, ua));
            && v[UrlLenSlot] == va[UrlLenSlot] + vb[UrlLenSlot]
            && v[UrlDepthSlot] == va[UrlDepthSlot] + vb[UrlDepthSlot]
            && v[UrlDigitsSlot] == va[UrlDigitsSlot] + vb[UrlDigitsSlot]
            && v[UrlSpecialSlot] == va[UrlSpecialSlot] + vb[UrlSpecialSlot]
  {
    CountAppend(a, b, IsSlash);
    CountAppend(a, b, IsDigit);
    CountAppend(a, b, IsSpecial);
  }

  /** The positions of `s` whose character satisfies `p`. */
  function Positions(s: string, p: char -> bool): set<int> {
    set i | 0 <= i < |s| && p(s[i])
  }

  /** `Count` is the number of positions whose character satisfies `p`. */
  lemma {:induction false} CountIsPositions(s: string, p: char -> bool)
    ensures Count(s, p) == |Positions(s, p)|
    decreases |s|
  {
    if s != [] {
      var n := |s| - 1;
      CountIsPositions(s[..n], p);
      assert Positions(s, p) == Positions(s[..n], p) + (if p(s[n]) then {n} else {});
    }
  }

  /** What each count slot counts: url_len and ua_len are lengths, and
      url_depth, url_digits, url_special and ua_digits are the numbers of
      positions holding a '/', a digit, a non-alphanumeric character and a
      digit. */
  lemma FeatureSlotsCount(r: Request)
    ensures var url, ua, v := r.url.GetOr(""), r.userAgent.GetOr(""), ExtractFeatures(r);
            && v[UrlLenSlot] == |url|
            && v[UrlDepthSlot] == |Positions(url, IsSlash)|
            && v[UrlDigitsSlot] == |Positions(url, IsDigit)|
            && v[UrlSpecialSlot] == |Positions(url, IsSpecial)|
            && v[UaLenSlot] == |ua|
            && v[UaDigitsSlot] == |Positions(ua, IsDigit)|
  {
    var url, ua := r.url.GetOr(""), r.userAgent.GetOr("");
    CountIsPositions(url, IsSlash);
    CountIsPositions(url, IsDigit);
    CountIsPositions(url, IsSpecial);
    CountIsPositions(ua, IsDigit);
  }

  /** The root page fetched by a browser: [0, 1, 1, 0, 1] whatever the user
      agent, followed by the user agent's length, and a positive digit count
      when it holds a digit. */
  lemma RootPageScenario(ua: string)
    ensures var v := ExtractFeatures(Request(Some("/"), Some("GET"), Some(ua)));
            && v[..UaLenSlot] == [0, 1, 1, 0, 1] && v[UaLenSlot] == |ua|
            && ((exists d :: 0 <= d < |ua| && IsDigit(ua[d])) ==> v[UaDigitsSlot] > 0)
  {
    assert Upper("GET") == "GET";
    CountIsPositions(ua, IsDigit);
    if d :| 0 <= d < |ua| && IsDigit(ua[d]) {
      assert d in Positions(ua, IsDigit);
    }
  }

  /** The "/about" page: [0, 6, 1, 0, 1] whatever the user agent. */
  lemma AboutPageScenario(ua: string)
    ensures var v := ExtractFeatures(Request(Some("/about"), Some("GET"), Some(ua)));
            v[..UaLenSlot] == [0, 6, 1, 0, 1] && v[UaLenSlot] == |ua|
  {
    assert Upper("GET") == "GET";
    var url := "/about";
    assert url == "/" + "about";
    var word := "about";
    assert forall i :: 0 <= i < |word| ==> 'a' <= word[i] <= 'z';
    CountNone(word, IsSlash);
    CountNone(word, IsDigit);
    CountNone(word, IsSpecial);
    CountAppend("/", word, IsSlash);
    CountAppend("/", word, IsDigit);
    CountAppend("/", word, IsSpecial);
  }

  /** The second request of the diagnostic script: an SQL-injection probe sent
      by sqlmap. */
  const ProbeUrl := "/login?user=' OR 1=1"
  const ProbeAgent := "sqlmap/1.5.2"

  /** The probe's counts, one lemma per count slot. */
  lemma ProbeUrlSlashes()
    ensures Count(ProbeUrl, IsSlash) == 1
  {
    var rest := "login?user=' OR 1=1";
    assert ProbeUrl == "/" + rest;
    assert forall i :: 0 <= i < |rest| ==> rest[i] != '/';
    CountNone(rest, IsSlash);
    CountAppend("/", rest, IsSlash);
  }

  lemma ProbeUrlDigits()
    ensures Count(ProbeUrl, IsDigit) == 2
  {
    var head, tail := "/login?user=' OR ", "1=1";
    assert ProbeUrl == head + tail;
    assert forall i :: 0 <= i < |head| ==> !IsDigit(head[i]);
    CountNone(head, IsDigit);
    assert tail[..2][..1] == tail[..1];
    assert tail[..2] == "1=" && tail == tail[..2] + "1";
    CountAppend(tail[..2], "1", IsDigit);
    CountAppend(head, tail, IsDigit);
  }


  lemma ProbeUrlSpecials()
    ensures Count(ProbeUrl, IsSpecial) == 7
  {
    var s := ProbeUrl;
    assert s[..1][..0] == s[..0];
    assert Count(s[..1], IsSpecial) == 1;
    assert s[..2][..1] == s[..1];
    assert Count(s[..2], IsSpecial) == 1;
    assert s[..3][..2] == s[..2];
    assert Count(s[..3], IsSpecial) == 1;
    assert s[..4][..3] == s[..3];
    assert Count(s[..4], IsSpecial) == 1;
    assert s[..5][..4] == s[..4];
    assert Count(s[..5], IsSpecial) == 1;
    assert s[..6][..5] == s[..5];
    assert Count(s[..6], IsSpecial) == 1;
    assert s[..7][..6] == s[..6];
    assert Count(s[..7], IsSpecial) == 2;
    assert s[..8][..7] == s[..7];
    assert Count(s[..8], IsSpecial) == 2;
    assert s[..9][..8] == s[..8];
    assert Count(s[..9], IsSpecial) == 2;
    assert s[..10][..9] == s[..9];
    assert Count(s[..10], IsSpecial) == 2;
    assert s[..11][..10] == s[..10];
    assert Count(s[..11], IsSpecial) == 2;
    assert s[..12][..11] == s[..11];
    assert Count(s[..12], IsSpecial) == 3;
    assert s[..13][..12] == s[..12];
    assert Count(s[..13], IsSpecial) == 4;
    assert s[..14][..13] == s[..13];
    assert Count(s[..14], IsSpecial) == 5;
    assert s[..15][..14] == s[..14];
    assert Count(s[..15], IsSpecial) == 5;
    assert s[..16][..15] == s[..15];
    assert Count(s[..16], IsSpecial) == 5;
    assert s[..17][..16] == s[..16];
    assert Count(s[..17], IsSpecial) == 6;
    assert s[..18][..17] == s[..17];
    assert Count(s[..18], IsSpecial) == 6;
    assert s[..19][..18] == s[..18];
    assert Count(s[..19], IsSpecial) == 7;
    assert s[..20][..19] == s[..19];
    assert Count(s[..20], IsSpecial) == 7;
    assert s[..20] == s;
  }


  lemma ProbeAgentDigits()
    ensures Count(ProbeAgent, IsDigit) == 3
  {
    var head, tail := "sqlmap/", "1.5.2";
    assert ProbeAgent == head + tail;
    assert forall i :: 0 <= i < |head| ==> !IsDigit(head[i]);
    CountNone(head, IsDigit);
    assert tail == "1." + "5." + "2";
    CountAppend("1.", "5.", IsDigit);
    CountAppend("1." + "5.", "2", IsDigit);
    CountAppend(head, tail, IsDigit);
  }


  /** The SQL-injection probe: [0, 20, 1, 2, 7, 12, 3]. Its url carries more
      digits and special characters than the root page's [0, 1, 1, 0, 1]. */
  lemma InjectionProbeScenario()
    ensures ExtractFeatures(Request(Some(ProbeUrl), Some("GET"), Some(ProbeAgent))) == [0, 20, 1, 2, 7, 12, 3]
  {
    assert Upper("GET") == "GET";
    ProbeUrlSlashes();
    ProbeUrlDigits();
    ProbeUrlSpecials();
    ProbeAgentDigits();
  }
}
