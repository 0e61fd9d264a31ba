/**
 * The string handling of the dashboard's shared browser script: reading one
 * cookie out of `document.cookie`, installing the CSRF header, and building
 * the job-list and instance-switch URLs.
 *
 * `decodeURIComponent` and `encodeURIComponent` are not modelled: the cookie
 * string arrives already decoded, and the URL encoder is a parameter.
 */
module ClientScripts {
  import opened Slicing
  import Text

  /** `s.join(sep)` for a one-character separator. */
  function Joined(parts: seq<string>, sep: char): (s: string)
    ensures |parts| == 1 ==> s == parts[0]
  {
    if |parts| == 0 then ""
    else if |parts| == 1 then parts[0]
    else parts[0] + [sep] + Joined(parts[1..], sep)
  }

  /** `s.split(sep)` for a one-character separator: always at least one piece, none holding `sep`. */
  function Split(s: string, sep: char): (r: seq<string>)
    ensures |r| >= 1
    ensures forall i :: 0 <= i < |r| ==> sep !in r[i]
    decreases |s|
  {
    var i := IndexOf(s, sep);
    if i < 0 then [s] else [s[..i]] + Split(s[i + 1..], sep)
  }

  /** The first separator of `a + [c] + b` is the one after `a` when `a` holds none. */
  lemma IndexOfAfter(a: string, c: char, b: string)
    requires c !in a
    ensures IndexOf(a + [c] + b, c) == |a|
  {
    assert (a + [c] + b)[|a|] == c;
  }

  /** Splitting at the first separator: the piece before it, then the split of the rest. */
  lemma SplitAt(s: string, sep: char, i: int)
    requires i == IndexOf(s, sep) && i >= 0
    ensures Split(s, sep) == [s[..i]] + Split(s[i + 1..], sep)
    ensures s == s[..i] + [sep] + s[i + 1..]
  {
    Rejoin(s, i);
  }

  /** A string is the part before position `i`, the character there, and the rest. */
  lemma Rejoin(s: string, i: nat)
    requires i < |s|
    ensures s == s[..i] + [s[i]] + s[i + 1..]
  {
    assert s[i..] == [s[i]] + s[i + 1..];
    assert s == s[..i] + s[i..];
  }

  /** Joining a leading piece onto at least one more. */
  lemma JoinedCons(head: string, tail: seq<string>, sep: char)
    requires |tail| >= 1
    ensures Joined([head] + tail, sep) == head + [sep] + Joined(tail, sep)
  {
    assert ([head] + tail)[1..] == tail;
  }

  /** Splitting undoes joining. */
  lemma {:induction false} JoinSplit(s: string, sep: char)
    ensures Joined(Split(s, sep), sep) == s
    decreases |s|
  {
    var i := IndexOf(s, sep);
    if i >= 0 {
      var rest := s[i + 1..];
      SplitAt(s, sep, i);
      JoinSplit(rest, sep);
      JoinedCons(s[..i], Split(rest, sep), sep);
    }
  }

  /** Joining pieces free of the separator and splitting again gives the pieces back. */
  lemma {:induction false} SplitJoin(parts: seq<string>, sep: char)
    requires |parts| >= 1
    requires forall i :: 0 <= i < |parts| ==> sep !in parts[i]
    ensures Split(Joined(parts, sep), sep) == parts
  {
    if |parts| > 1 {
      var tail := parts[1..];
      var rest := Joined(tail, sep);
      var s := parts[0] + [sep] + rest;
      assert Joined(parts, sep) == s;
      IndexOfAfter(parts[0], sep, rest);
      SplitAt(s, sep, |parts[0]|);
      assert s[..|parts[0]|] == parts[0];
      assert s[|parts[0]| + 1..] == rest;
      assert forall i :: 0 <= i < |tail| ==> tail[i] == parts[i + 1];
      SplitJoin(tail, sep);
      assert parts == [parts[0]] + tail;
    } else {
      assert IndexOf(parts[0], sep) == -1;
    }
  }

  // ---------------------------------------------------------------- cookies

  /** The only character `getCookie` strips from the front of a segment. */
  predicate IsBlank(c: char)
  {
    c == ' '
  }

  /** A cookie segment with its leading blanks removed. */
  function Trimmed(segment: string): (t: string)
    ensures t == [] || t[0] != ' '
    ensures forall k :: 0 <= k < |segment| - |t| ==> segment[k] == ' '
    ensures |t| <= |segment| && t == segment[|segment| - |t|..]
  {
    Text.LStrip(segment, IsBlank)
  }

  /** Stripping blanks stops at the first non-blank character, wherever that is. */
  lemma {:induction false} TrimmedUnique(segment: string, k: nat)
    requires k <= |segment|
    requires forall j :: 0 <= j < k ==> segment[j] == ' '
    requires k == |segment| || segment[k] != ' '
    ensures Trimmed(segment) == segment[k..]
  {
    if k > 0 {
      TrimmedUnique(segment[1..], k - 1);
      assert segment[1..][k - 1..] == segment[k..];
    } else if |segment| > 0 {
      Text.LStripKeeps(segment, IsBlank);
    }
  }

  /** Whether a segment sets the cookie `cname`: once trimmed, it starts with `cname=`. */
  predicate Sets(segment: string, cname: string)
  {
    Text.StartsWith(Trimmed(segment), cname + "=")
  }

  /**
   * What `getCookie(cname)` answers for the `;`-separated segments: the text
   * after `cname=` in the first segment that sets `cname`, or "" when none does.
   */
  function CookieValue(segments: seq<string>, cname: string): (v: string)
    ensures (forall i :: 0 <= i < |segments| ==> !Sets(segments[i], cname)) ==> v == ""
  {
    if |segments| == 0 then ""
    else if Sets(segments[0], cname) then Trimmed(segments[0])[|cname| + 1..]
    else CookieValue(segments[1..], cname)
  }

  /** One step of the walk over the remaining segments `segments[i..]`. */
  lemma CookieValueStep(segments: seq<string>, cname: string, i: nat)
    requires i < |segments|
    ensures CookieValue(segments[i..], cname)
      == if Sets(segments[i], cname) then Trimmed(segments[i])[|cname| + 1..] else CookieValue(segments[i + 1..], cname)
  {
    assert segments[i..][0] == segments[i];
    assert segments[i..][1..] == segments[i + 1..];
  }

  /** The inner loop of `getCookie`: drop the segment's leading blanks one at a time. */
  method SkipBlanks(segment: string) returns (c: string)
    ensures c == Trimmed(segment)
  {
    c := segment;
    while |c| > 0 && c[0] == ' '
      invariant |c| <= |segment| && c == segment[|segment| - |c|..]
      invariant forall k :: 0 <= k < |segment| - |c| ==> segment[k] == ' '
    {
      c := c[1..];
    }
    TrimmedUnique(segment, |segment| - |c|);
  }

  /** `getCookie`: walk the segments, strip leading blanks from each, answer at the first match. */
  method GetCookie(decodedCookie: string, cname: string) returns (value: string)
    ensures value == CookieValue(Split(decodedCookie, ';'), cname)
  {
    var name := cname + "=";
    var ca := Split(decodedCookie, ';');
    var i := 0;
    while i < |ca|
      invariant 0 <= i <= |ca|
      invariant CookieValue(ca, cname) == CookieValue(ca[i..], cname)
    {
      var c := SkipBlanks(ca[i]);
      CookieValueStep(ca, cname, i);
      if Text.StartsWith(c, name) {
        return c[|name|..];
      }
      i := i + 1;
    }
    return "";
  }

  /** The answer comes from the first segment that sets the cookie, whatever the later ones say. */
  lemma {:induction false} CookieValueFirstMatch(segments: seq<string>, cname: string, i: nat)
    requires i < |segments| && Sets(segments[i], cname)
    requires forall j :: 0 <= j < i ==> !Sets(segments[j], cname)
    ensures CookieValue(segments, cname) == Trimmed(segments[i])[|cname| + 1..]
  {
    if i > 0 {
      var rest := segments[1..];
      assert !Sets(segments[0], cname);
      assert rest[i - 1] == segments[i];
      assert forall j :: 0 <= j < i - 1 ==> !Sets(rest[j], cname) by {
        forall j | 0 <= j < i - 1 ensures !Sets(rest[j], cname) {
          assert rest[j] == segments[j + 1];
        }
      }
      CookieValueFirstMatch(rest, cname, i - 1);
    }
  }

  /** The name of the cookie a trimmed segment sets: the text before its first `=`. */
  function CookieName(trimmed: string): (n: string)
    ensures |n| <= |trimmed| && '=' !in n
  {
    var k := IndexOf(trimmed, '=');
    if k < 0 then trimmed else trimmed[..k]
  }

  /** A trimmed segment `cname=...` sets a cookie named `cname` when the name holds no `=`. */
  lemma NameOfMatch(t: string, cname: string)
    requires '=' !in cname && Text.StartsWith(t, cname + "=")
    ensures '=' in t && CookieName(t) == cname
  {
    var rest := t[|cname| + 1..];
    assert t == cname + ['='] + rest;
    IndexOfAfter(cname, '=', rest);
  }

  /** Conversely, a trimmed segment whose cookie name is `cname` starts with `cname=`. */
  lemma MatchOfName(t: string, cname: string)
    requires '=' in t && CookieName(t) == cname
    ensures Text.StartsWith(t, cname + "=")
  {
    var k := IndexOf(t, '=');
    assert t[..k] == cname && t[k] == '=';
    assert t[..k + 1] == t[..k] + [t[k]];
  }

  /**
   * For a name without `=`, a segment matches exactly when the cookie it sets
   * has that very name: neither a longer name nor a shorter one matches.
   */
  lemma ExactNameMatch(segment: string, cname: string)
    requires '=' !in cname
    ensures Sets(segment, cname) <==> ('=' in Trimmed(segment) && CookieName(Trimmed(segment)) == cname)
  {
    var t := Trimmed(segment);
    if Sets(segment, cname) {
      NameOfMatch(t, cname);
    }
    if '=' in t && CookieName(t) == cname {
      MatchOfName(t, cname);
    }
  }

  /** Only blanks are skipped: a segment starting with any other character must match as it stands. */
  lemma OnlyBlanksSkipped(segment: string, cname: string)
    requires |segment| > 0 && segment[0] != ' '
    ensures Sets(segment, cname) <==> Text.StartsWith(segment, cname + "=")
  {
    Text.LStripKeeps(segment, IsBlank);
  }

  const CsrfCookieName: string := "_csrf_token"
  const CsrfHeaderName: string := "X-CSRFToken"

  /** The headers installed for every AJAX call from the CSRF token found in the cookie. */
  function CsrfHeaders(token: string): (headers: map<string, string>)
    ensures CsrfHeaderName in headers <==> token != ""
    ensures headers.Keys <= {CsrfHeaderName}
    ensures CsrfHeaderName in headers ==> headers[CsrfHeaderName] == token
  {
    if token != "" then map[CsrfHeaderName := token] else map[]
  }

  /** Read `_csrf_token` from the cookie and install the `X-CSRFToken` header only if it is non-empty. */
  method CsrfSetup(decodedCookie: string) returns (headers: map<string, string>)
    ensures headers == CsrfHeaders(CookieValue(Split(decodedCookie, ';'), CsrfCookieName))
    ensures (forall i :: 0 <= i < |Split(decodedCookie, ';')| ==> !Sets(Split(decodedCookie, ';')[i], CsrfCookieName))
      ==> headers == map[]
  {
    var token := GetCookie(decodedCookie, CsrfCookieName);
    headers := CsrfHeaders(token);
  }

  // ---------------------------------------------------------------- URLs

  /** The four encoded path segments shared by the job-list URLs. */
  function JobsSegments(encode: string -> string, queueName: string, registryName: string, perPage: nat, page: nat): seq<string>
  {
    [encode(queueName), encode(registryName), encode(Text.ShowNat(perPage)), encode(Text.ShowNat(page))]
  }

  /** `url_for_jobs_data`: under the instance's `/data/jobs/`, starting with the encoded queue name and ending in `.json`. */
  function UrlForJobsData(prefix: string, instance: string, encode: string -> string,
                          queueName: string, registryName: string, perPage: nat, page: nat): (url: string)
    ensures var head := prefix + instance + "/data/jobs/" + encode(queueName) + "/";
      |head| + 5 <= |url| && url[..|head|] == head && url[|url| - 5..] == ".json"
  {
    prefix + instance + "/data/jobs/" + encode(queueName) + "/" + encode(registryName) + "/"
      + encode(Text.ShowNat(perPage)) + "/" + encode(Text.ShowNat(page)) + ".json"
  }

  /** `url_for_jobs_view`: under the instance's `/view/jobs/`, starting with the encoded queue name and ending with the encoded page. */
  function UrlForJobsView(prefix: string, instance: string, encode: string -> string,
                          queueName: string, registryName: string, perPage: nat, page: nat): (url: string)
    ensures var head := prefix + instance + "/view/jobs/" + encode(queueName) + "/";
      var last := "/" + encode(Text.ShowNat(page));
      |head| + |last| <= |url| && url[..|head|] == head && url[|url| - |last|..] == last
  {
    prefix + instance + "/view/jobs/" + encode(queueName) + "/" + encode(registryName) + "/"
      + encode(Text.ShowNat(perPage)) + "/" + encode(Text.ShowNat(page))
  }

  /** `a/b/c/d` written out piece by piece is the join of the four pieces. */
  lemma FourJoined(a: string, b: string, c: string, d: string)
    ensures a + "/" + b + "/" + c + "/" + d == Joined([a, b, c, d], '/')
  {
    assert [a, b, c, d][1..] == [b, c, d];
    assert [b, c, d][1..] == [c, d];
    assert [c, d][1..] == [d];
    assert Joined([c, d], '/') == c + "/" + d;
    assert Joined([b, c, d], '/') == b + "/" + (c + "/" + d);
    assert Joined([a, b, c, d], '/') == a + "/" + (b + "/" + (c + "/" + d));
  }

  /**
   * When the encoder never yields `/`, the data URL is its fixed head followed by
   * exactly four `/`-separated segments, the last carrying the `.json` suffix.
   */
  lemma JobsDataSegments(prefix: string, instance: string, encode: string -> string,
                         queueName: string, registryName: string, perPage: nat, page: nat)
    requires forall i :: 0 <= i < 4 ==> '/' !in JobsSegments(encode, queueName, registryName, perPage, page)[i]
    ensures var head := prefix + instance + "/data/jobs/";
      var url := UrlForJobsData(prefix, instance, encode, queueName, registryName, perPage, page);
      var s := JobsSegments(encode, queueName, registryName, perPage, page);
      |head| <= |url| && url[..|head|] == head
      && Split(url[|head|..], '/') == [s[0], s[1], s[2], s[3] + ".json"]
  {
    var head := prefix + instance + "/data/jobs/";
    var s := JobsSegments(encode, queueName, registryName, perPage, page);
    var last := s[3] + ".json";
    assert '/' !in ".json";
    assert '/' !in last by {
      forall k | 0 <= k < |last| ensures last[k] != '/' {
        if k < |s[3]| { assert last[k] == s[3][k]; } else { assert last[k] == ".json"[k - |s[3]|]; }
      }
    }
    FourJoined(s[0], s[1], s[2], last);
    var tail := Joined([s[0], s[1], s[2], last], '/');
    var url := UrlForJobsData(prefix, instance, encode, queueName, registryName, perPage, page);
    assert url == head + tail;
    assert url[|head|..] == tail;
    SplitJoin([s[0], s[1], s[2], last], '/');
  }

  /** The view URL carries the same four segments, after its own fixed head and with no suffix. */
  lemma JobsViewSegments(prefix: string, instance: string, encode: string -> string,
                         queueName: string, registryName: string, perPage: nat, page: nat)
    requires forall i :: 0 <= i < 4 ==> '/' !in JobsSegments(encode, queueName, registryName, perPage, page)[i]
    ensures var head := prefix + instance + "/view/jobs/";
      var url := UrlForJobsView(prefix, instance, encode, queueName, registryName, perPage, page);
      |head| <= |url| && url[..|head|] == head
      && Split(url[|head|..], '/') == JobsSegments(encode, queueName, registryName, perPage, page)
  {
    var head := prefix + instance + "/view/jobs/";
    var s := JobsSegments(encode, queueName, registryName, perPage, page);
    FourJoined(s[0], s[1], s[2], s[3]);
    var url := UrlForJobsView(prefix, instance, encode, queueName, registryName, perPage, page);
    assert url == head + Joined([s[0], s[1], s[2], s[3]], '/');
    assert url[|head|..] == Joined(s, '/');
    SplitJoin(s, '/');
  }

  /**
   * `url_for_new_instance`: drop the first character of the path, then
   * everything before the next `/`, and put the instance number in front.
   */
  function UrlForNewInstance(pathname: string, newInstanceNumber: nat): (r: string)
    ensures var n := Text.ShowNat(newInstanceNumber);
      |n| <= |r| && r[..|n|] == n
      && |r| - |n| <= |pathname| && r[|n|..] == pathname[|pathname| - (|r| - |n|)..]
    ensures 1 <= |pathname| && '/' in pathname[1..] ==> var n := Text.ShowNat(newInstanceNumber);
      |n| < |r| && r[|n|] == '/'
  {
    var url := JsSliceFrom(pathname, 1);
    var rest := JsSliceFrom(url, IndexOf(url, '/'));
    assert rest == pathname[|pathname| - |rest|..] by {
      assert url[|url| - |rest|..] == pathname[|pathname| - |url|..][|url| - |rest|..];
    }
    Text.ShowNat(newInstanceNumber) + rest
  }

  /** On a path `/<instance>/<rest>` the first segment is replaced by the new instance number. */
  lemma NewInstanceReplacesFirstSegment(lead: char, instance: string, rest: string, newInstanceNumber: nat)
    requires '/' !in instance
    ensures UrlForNewInstance([lead] + instance + "/" + rest, newInstanceNumber)
      == Text.ShowNat(newInstanceNumber) + "/" + rest
  {
    var pathname := [lead] + instance + "/" + rest;
    var url := JsSliceFrom(pathname, 1);
    assert url == instance + ['/'] + rest;
    IndexOfAfter(instance, '/', rest);
    assert JsSliceFrom(url, |instance|) == "/" + rest;
  }

  /**
   * Without a second `/`, `indexOf` answers -1 and `slice(-1)` keeps the last
   * character: the result is the number followed by that one character.
   */
  lemma NewInstanceWithoutSecondSlash(pathname: string, newInstanceNumber: nat)
    requires |pathname| >= 2 && '/' !in pathname[1..]
    ensures UrlForNewInstance(pathname, newInstanceNumber)
      == Text.ShowNat(newInstanceNumber) + [pathname[|pathname| - 1]]
  {
    var url := JsSliceFrom(pathname, 1);
    assert url == pathname[1..];
    assert JsSliceFrom(url, -1) == [pathname[|pathname| - 1]];
  }
}
