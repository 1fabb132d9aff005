/**
 * The cookie helper: reading one cookie out of the browser's `name=value; name=value` string, the consent
 * check built on it, and the assignment string that writing a cookie produces.  Off the browser (server-side
 * rendering) nothing is read or written.
 */
module CookieService {
  import opened Wrappers

  /** The name of the cookie that records consent. */
  const ConsentCookieName: string := "user-consent"

  /** How long a consent lasts, in days. */
  const ConsentDays: real := 365.0

  /** `split(';')`: the pieces between the separators, so one more piece than there are separators. */
  function Split(s: string): (parts: seq<string>)
    ensures |parts| >= 1
    ensures forall i :: 0 <= i < |parts| ==> ';' !in parts[i]
  {
    if |s| == 0 then
      [""]
    else
      var rest := Split(s[1..]);
      if s[0] == ';' then [""] + rest else [[s[0]] + rest[0]] + rest[1..]
  }

  /** `join(';')`. */
  function Join(parts: seq<string>): string {
    if |parts| == 0 then "" else if |parts| == 1 then parts[0] else parts[0] + ";" + Join(parts[1..])
  }

  /** Joining the pieces back gives the string that was split. */
  lemma {:induction false} JoinSplit(s: string)
    ensures Join(Split(s)) == s
  {
    if |s| > 0 {
      JoinSplit(s[1..]);
      var rest := Split(s[1..]);
      if s[0] == ';' {
        assert Split(s) == [""] + rest;
        assert ([""] + rest)[1..] == rest;
      } else {
        assert Split(s) == [[s[0]] + rest[0]] + rest[1..];
        if |rest| > 1 {
          assert ([[s[0]] + rest[0]] + rest[1..])[1..] == rest[1..];
        }
      }
    }
  }

  /** A string without a separator is one piece. */
  lemma {:induction false} SplitWithoutSeparator(s: string)
    requires ';' !in s
    ensures Split(s) == [s]
  {
    if |s| > 0 {
      assert ';' !in s[1..] by {
        forall k | 0 <= k < |s[1..]| ensures s[1..][k] != ';' {
          assert s[1..][k] == s[k + 1];
        }
      }
      SplitWithoutSeparator(s[1..]);
      assert [s[0]] + s[1..] == s;
    }
  }

  /** Splitting at a separator splits the pieces. */
  lemma {:induction false} SplitAtSeparator(a: string, b: string)
    ensures Split(a + ";" + b) == Split(a) + Split(b)
  {
    if |a| == 0 {
      assert a + ";" + b == ";" + b;
      assert (";" + b)[1..] == b;
    } else {
      var s := a + ";" + b;
      assert s[1..] == a[1..] + ";" + b;
      SplitAtSeparator(a[1..], b);
      assert s[0] == a[0];
    }
  }

  /** Splitting pieces joined with the separator gives the pieces back, when none of them holds it. */
  lemma {:induction false} SplitJoin(parts: seq<string>)
    requires |parts| >= 1
    requires forall i :: 0 <= i < |parts| ==> ';' !in parts[i]
    ensures Split(Join(parts)) == parts
  {
    SplitWithoutSeparator(parts[0]);
    if |parts| > 1 {
      SplitJoin(parts[1..]);
      SplitAtSeparator(parts[0], Join(parts[1..]));
      assert [parts[0]] + parts[1..] == parts;
    }
  }

  /** The inner `while`: drop leading spaces. */
  function TrimLeadingSpaces(c: string): (r: string)
    ensures |r| <= |c| && r == c[|c| - |r|..]
    ensures forall j :: 0 <= j < |c| - |r| ==> c[j] == ' '
    ensures r == [] || r[0] != ' '
  {
    if |c| > 0 && c[0] == ' ' then TrimLeadingSpaces(c[1..]) else c
  }

  /** Whether a piece, once trimmed, is the cookie `nameEQ` looks for. */
  predicate Matches(segment: string, nameEQ: string) {
    StartsWith(TrimLeadingSpaces(segment), nameEQ)
  }

  /** The `for` loop: the text after `nameEQ` in the first piece that starts with it, trimmed. */
  function FirstMatch(segments: seq<string>, nameEQ: string): Option<string> {
    if |segments| == 0 then None
    else if Matches(segments[0], nameEQ) then Some(TrimLeadingSpaces(segments[0])[|nameEQ|..])
    else FirstMatch(segments[1..], nameEQ)
  }

  /** What `getCookie(name)` returns for a given `document.cookie`. */
  function CookieValue(isBrowser: bool, documentCookie: string, name: string): Option<string> {
    if !isBrowser then None else FirstMatch(Split(documentCookie), name + "=")
  }

  /**
   * The loop's result, stated without the loop: null exactly when no piece matches; otherwise the text after
   * `nameEQ` in a matching piece with no matching piece before it.
   */
  lemma {:induction false} FirstMatchIsFirst(segments: seq<string>, nameEQ: string)
    ensures FirstMatch(segments, nameEQ).None? <==> forall i :: 0 <= i < |segments| ==> !Matches(segments[i], nameEQ)
    ensures FirstMatch(segments, nameEQ).Some? ==>
      exists i :: 0 <= i < |segments| && Matches(segments[i], nameEQ)
        && (forall j :: 0 <= j < i ==> !Matches(segments[j], nameEQ))
        && FirstMatch(segments, nameEQ).value == TrimLeadingSpaces(segments[i])[|nameEQ|..]
  {
    if |segments| > 0 && !Matches(segments[0], nameEQ) {
      var rest := segments[1..];
      FirstMatchIsFirst(rest, nameEQ);
      assert forall i :: 0 <= i < |rest| ==> rest[i] == segments[i + 1];
      if FirstMatch(rest, nameEQ).Some? {
        var i :| 0 <= i < |rest| && Matches(rest[i], nameEQ)
          && (forall j :: 0 <= j < i ==> !Matches(rest[j], nameEQ))
          && FirstMatch(rest, nameEQ).value == TrimLeadingSpaces(rest[i])[|nameEQ|..];
        assert forall j :: 0 <= j < i + 1 ==> !Matches(segments[j], nameEQ) by {
          forall j | 0 <= j < i + 1 ensures !Matches(segments[j], nameEQ) {
            if j > 0 {
              assert segments[j] == rest[j - 1];
            }
          }
        }
      } else {
        forall i | 0 <= i < |segments| ensures !Matches(segments[i], nameEQ) {
          if i > 0 {
            assert segments[i] == rest[i - 1];
          }
        }
      }
    }
  }

  /** The text after `nameEQ` in a piece without ';' has none either. */
  lemma {:induction false} FirstMatchHasNoSeparator(segments: seq<string>, nameEQ: string)
    requires forall i :: 0 <= i < |segments| ==> ';' !in segments[i]
    ensures FirstMatch(segments, nameEQ).Some? ==> ';' !in FirstMatch(segments, nameEQ).value
  {
    if |segments| > 0 {
      var segment := segments[0];
      var trimmed := TrimLeadingSpaces(segment);
      if Matches(segment, nameEQ) {
        assert forall k :: 0 <= k < |trimmed| ==> trimmed[k] == segment[|segment| - |trimmed| + k];
        assert forall k :: |nameEQ| <= k < |trimmed| ==> trimmed[|nameEQ|..][k - |nameEQ|] == trimmed[k];
      } else {
        FirstMatchHasNoSeparator(segments[1..], nameEQ);
      }
    }
  }

  /** A value read back never contains ';'. */
  lemma CookieValueHasNoSeparator(isBrowser: bool, documentCookie: string, name: string)
    ensures CookieValue(isBrowser, documentCookie, name).Some? ==> ';' !in CookieValue(isBrowser, documentCookie, name).value
  {
    FirstMatchHasNoSeparator(Split(documentCookie), name + "=");
  }

  /**
   * `getCookie`: null off the browser; otherwise split `document.cookie` on ';', strip each piece's leading
   * spaces, and return the rest of the first piece that starts with `name=`, or null.
   */
  method GetCookie(isBrowser: bool, documentCookie: string, name: string) returns (r: Option<string>)
    ensures r == CookieValue(isBrowser, documentCookie, name)
  {
    if !isBrowser {
      return None;
    }
    var nameEQ := name + "=";
    var ca := Split(documentCookie);
    for i := 0 to |ca|
      invariant FirstMatch(ca, nameEQ) == FirstMatch(ca[i..], nameEQ)
    {
      var c := ca[i];
      while |c| > 0 && c[0] == ' '
        invariant TrimLeadingSpaces(c) == TrimLeadingSpaces(ca[i])
      {
        c := c[1..];
      }
      assert ca[i..][0] == ca[i] && ca[i..][1..] == ca[i + 1..];
      if |nameEQ| <= |c| && c[..|nameEQ|] == nameEQ {
        return Some(c[|nameEQ|..]);
      }
    }
    return None;
  }

  /** `hasConsent`: whether the consent cookie reads exactly 'true'. */
  method HasConsent(isBrowser: bool, documentCookie: string) returns (consented: bool)
    ensures consented <==> CookieValue(isBrowser, documentCookie, ConsentCookieName) == Some("true")
  {
    var value := GetCookie(isBrowser, documentCookie, ConsentCookieName);
    consented := value == Some("true");
  }

  /**
   * The string `setCookie` assigns to `document.cookie`, or None off the browser, where it does nothing.
   * `expiryDate` is the `toUTCString()` of now plus `days`; a zero `days` writes no expiry.
   */
  function SetCookieString(isBrowser: bool, name: string, value: string, days: real, expiryDate: string): Option<string> {
    if !isBrowser then None
    else
      var expires := if days != 0.0 then "; expires=" + expiryDate else "";
      Some(name + "=" + value + expires + "; path=/")
  }

  /** `giveConsent`: the consent cookie set to 'true' for a year. */
  function ConsentCookieString(isBrowser: bool, expiryDate: string): Option<string> {
    SetCookieString(isBrowser, ConsentCookieName, "true", ConsentDays, expiryDate)
  }

  /**
   * The reader applied to the assignment string `setCookie` builds gives the value written: the name is the
   * first piece's key whatever the expiry says, as long as neither name nor value holds a ';' and the name
   * does not start with a space.
   */
  lemma ReadBackWrittenCookie(name: string, value: string, days: real, expiryDate: string)
    requires ';' !in name && ';' !in value && (name == [] || name[0] != ' ')
    ensures SetCookieString(true, name, value, days, expiryDate).Some?
    ensures CookieValue(true, SetCookieString(true, name, value, days, expiryDate).value, name) == Some(value)
  {
    var written := SetCookieString(true, name, value, days, expiryDate).value;
    var pair := name + "=" + value;
    var tail := if days != 0.0 then " expires=" + expiryDate + "; path=/" else " path=/";
    assert written == pair + ";" + tail;
    assert ';' !in pair by {
      forall k | 0 <= k < |pair| ensures pair[k] != ';' {
        if k < |name| {
          assert pair[k] == name[k];
        } else if k > |name| {
          assert pair[k] == value[k - |name| - 1];
        }
      }
    }
    SplitAtSeparator(pair, tail);
    SplitWithoutSeparator(pair);
    assert Split(written)[0] == pair;
    assert TrimLeadingSpaces(pair) == pair;
    assert pair[..|name + "="|] == name + "=";
    assert pair[|name + "="|..] == value;
  }

  /** The reader applied to the assignment string `giveConsent` builds on the browser yields consent. */
  lemma GivenConsentIsRead(expiryDate: string)
    ensures ConsentCookieString(true, expiryDate).Some?
    ensures CookieValue(true, ConsentCookieString(true, expiryDate).value, ConsentCookieName) == Some("true")
  {
    ReadBackWrittenCookie(ConsentCookieName, "true", ConsentDays, expiryDate);
  }

  /** A cookie as the browser lists it in `document.cookie`. */
  datatype Cookie = Cookie(name: string, value: string)

  /** Names without '=' or ';' that do not start with a space, values without ';'. */
  predicate WellFormed(cookie: Cookie) {
    && ';' !in cookie.name && '=' !in cookie.name && (cookie.name == [] || cookie.name[0] != ' ')
    && ';' !in cookie.value
  }

  function Pair(cookie: Cookie): string {
    cookie.name + "=" + cookie.value
  }

  /** The pieces of the browser's listing: the first pair as is, every later one after a space. */
  function Pieces(cookies: seq<Cookie>): seq<string> {
    seq(|cookies|, i requires 0 <= i < |cookies| => (if i == 0 then "" else " ") + Pair(cookies[i]))
  }

  /** `document.cookie` as the browser lists its cookies: `n1=v1; n2=v2; …`. */
  function CookieListing(cookies: seq<Cookie>): string {
    Join(Pieces(cookies))
  }

  /** The value of the first listed cookie with the given name. */
  function Lookup(cookies: seq<Cookie>, name: string): Option<string> {
    if |cookies| == 0 then None
    else if cookies[0].name == name then Some(cookies[0].value)
    else Lookup(cookies[1..], name)
  }

  /** A pair starts with `name=` exactly when the cookie has that name, for names without '='. */
  lemma PairMatches(cookie: Cookie, name: string)
    requires WellFormed(cookie) && '=' !in name
    ensures StartsWith(Pair(cookie), name + "=") <==> cookie.name == name
  {
    var pair := Pair(cookie);
    var nameEQ := name + "=";
    assert pair[|cookie.name|] == '=' && nameEQ[|name|] == '=';
    assert forall k :: 0 <= k < |cookie.name| ==> pair[k] == cookie.name[k];
    assert forall k :: 0 <= k < |name| ==> nameEQ[k] == name[k];
    if StartsWith(pair, nameEQ) {
      assert forall k :: 0 <= k < |nameEQ| ==> pair[k] == nameEQ[k];
      if |name| == |cookie.name| {
        assert cookie.name == pair[..|name|];
      }
    }
  }

  /** A piece of the listing, trimmed, is its pair. */
  lemma TrimPiece(cookie: Cookie, first: bool)
    requires WellFormed(cookie)
    ensures TrimLeadingSpaces((if first then "" else " ") + Pair(cookie)) == Pair(cookie)
  {
    var pair := Pair(cookie);
    assert pair[0] != ' ' by {
      if cookie.name != [] {
        assert pair[0] == cookie.name[0];
      } else {
        assert pair[0] == '=';
      }
    }
    if !first {
      assert (" " + pair)[1..] == pair;
    }
  }

  /** Searching pieces that trim to the pairs of well-formed cookies finds the first cookie with the name. */
  lemma {:induction false} FirstMatchFindsCookie(segments: seq<string>, cookies: seq<Cookie>, name: string)
    requires |segments| == |cookies| && '=' !in name
    requires forall i :: 0 <= i < |cookies| ==> WellFormed(cookies[i])
    requires forall i :: 0 <= i < |cookies| ==> TrimLeadingSpaces(segments[i]) == Pair(cookies[i])
    ensures FirstMatch(segments, name + "=") == Lookup(cookies, name)
  {
    if |cookies| > 0 {
      PairMatches(cookies[0], name);
      if cookies[0].name == name {
        assert Pair(cookies[0])[|name + "="|..] == cookies[0].value;
      } else {
        FirstMatchFindsCookie(segments[1..], cookies[1..], name);
      }
    }
  }

  /**
   * Reading a cookie from the browser's listing of well-formed cookies gives the value of the first cookie
   * listed under that name, and null when there is none, for any name without '='.
   */
  lemma GetCookieFromListing(cookies: seq<Cookie>, name: string)
    requires forall i :: 0 <= i < |cookies| ==> WellFormed(cookies[i])
    requires '=' !in name
    ensures CookieValue(true, CookieListing(cookies), name) == Lookup(cookies, name)
  {
    var pieces := Pieces(cookies);
    if |cookies| == 0 {
      assert pieces == [];
      assert CookieListing(cookies) == "";
      assert Split("") == [""];
      assert !Matches("", name + "=");
      assert [""][1..] == [];
      assert FirstMatch([""], name + "=") == FirstMatch([], name + "=");
    } else {
      forall i | 0 <= i < |pieces|
        ensures ';' !in pieces[i] && TrimLeadingSpaces(pieces[i]) == Pair(cookies[i])
      {
        TrimPiece(cookies[i], i == 0);
      }
      SplitJoin(pieces);
      FirstMatchFindsCookie(pieces, cookies, name);
    }
  }

  /** The consent cookie's name and the value `giveConsent` writes form a well-formed cookie. */
  lemma ConsentCookieWellFormed()
    ensures WellFormed(Cookie(ConsentCookieName, "true")) && '=' !in ConsentCookieName
  {
    assert forall k :: 0 <= k < |ConsentCookieName| ==> ConsentCookieName[k] in "user-consent";
  }

  /**
   * Reading consent from the browser's listing of well-formed cookies: `hasConsent` holds exactly when the
   * first listed 'user-consent' cookie has the value 'true'.
   */
  lemma ConsentFromListing(cookies: seq<Cookie>)
    requires forall i :: 0 <= i < |cookies| ==> WellFormed(cookies[i])
    ensures CookieValue(true, CookieListing(cookies), ConsentCookieName) == Some("true")
            <==> Lookup(cookies, ConsentCookieName) == Some("true")
  {
    ConsentCookieWellFormed();
    GetCookieFromListing(cookies, ConsentCookieName);
  }

  /**
   * The browser's cookie jar after an assignment: a cookie with the same name takes the old one's place
   * (section 5.3 of RFC 6265 keeps the old creation time, hence its position), otherwise the new cookie is
   * listed last.
   */
  function StoreCookie(jar: seq<Cookie>, cookie: Cookie): (r: seq<Cookie>)
    ensures |r| == |jar| || |r| == |jar| + 1
    ensures forall i :: 0 <= i < |r| ==> r[i] == cookie || r[i] in jar
  {
    if |jar| == 0 then [cookie]
    else if jar[0].name == cookie.name then [cookie] + jar[1..]
    else [jar[0]] + StoreCookie(jar[1..], cookie)
  }

  /** After storing a cookie, the first cookie listed under its name is the one stored. */
  lemma {:induction false} StoredCookieIsFound(jar: seq<Cookie>, cookie: Cookie)
    ensures Lookup(StoreCookie(jar, cookie), cookie.name) == Some(cookie.value)
  {
    if |jar| > 0 && jar[0].name != cookie.name {
      StoredCookieIsFound(jar[1..], cookie);
      assert ([jar[0]] + StoreCookie(jar[1..], cookie))[1..] == StoreCookie(jar[1..], cookie);
    }
  }

  /** Storing a cookie leaves what every other name reads unchanged. */
  lemma {:induction false} StoreKeepsOthers(jar: seq<Cookie>, cookie: Cookie, name: string)
    requires name != cookie.name
    ensures Lookup(StoreCookie(jar, cookie), name) == Lookup(jar, name)
  {
    if |jar| == 0 {
      assert [cookie][1..] == [];
    } else if jar[0].name == cookie.name {
      assert ([cookie] + jar[1..])[1..] == jar[1..];
    } else {
      StoreKeepsOthers(jar[1..], cookie, name);
      assert ([jar[0]] + StoreCookie(jar[1..], cookie))[1..] == StoreCookie(jar[1..], cookie);
    }
  }

  /**
   * After `giveConsent` stores its cookie in a jar of well-formed cookies, the browser's listing reads as
   * consent given.
   */
  lemma GivenConsentIsListed(jar: seq<Cookie>)
    requires forall i :: 0 <= i < |jar| ==> WellFormed(jar[i])
    ensures CookieValue(true, CookieListing(StoreCookie(jar, Cookie(ConsentCookieName, "true"))), ConsentCookieName)
            == Some("true")
  {
    var stored := StoreCookie(jar, Cookie(ConsentCookieName, "true"));
    ConsentCookieWellFormed();
    StoredCookieIsFound(jar, Cookie(ConsentCookieName, "true"));
    ConsentFromListing(stored);
  }
}
