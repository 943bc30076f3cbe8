/** The rules of the home page's script: the lock that keeps every redirect
    on the app's domain, reading the user name and the logged-in flag from
    `document.cookie`, the 24-hour session window and the one-minute cache
    of the auth state, the explore buttons and the search redirect, the
    support cards and the import-listing form. The cookie string, the local
    storage and the clock are inputs here. */
module HomePage {
  import opened Strings
  import opened JsNumbers
  import opened UriComponent
  import FooterForm

  // ---------------------------------------------------------------------
  // URL lock

  const AuthorizedDomain: string := "app.split.lease"
  const Locked: bool := true

  /** `URL_LOCK.validateURL`: while locked, a URL passes exactly when it
      mentions the authorized domain. */
  function ValidateUrl(url: string): (r: bool)
    ensures r <==> Contains(url, AuthorizedDomain)
  {
    if !Locked then true else Contains(url, AuthorizedDomain)
  }

  /** `URL_LOCK.getBaseURL` */
  function BaseUrl(): string {
    "https://" + AuthorizedDomain
  }

  /** Every URL under the base URL passes the lock. */
  lemma UnderBaseUrlValid(path: string)
    ensures ValidateUrl(BaseUrl() + path)
    ensures BaseUrl() == "https://app.split.lease"
  {
    ContainsMiddle("https://", AuthorizedDomain, path);
  }

  // ---------------------------------------------------------------------
  // Cookies

  /** `document.cookie.split('; ')` */
  function Cookies(cookie: string): (r: seq<string>)
    ensures |r| >= 1 && forall k :: 0 <= k < |r| ==> Find(r[k], "; ").None?
  {
    SplitOn(cookie, "; ")
  }

  /** Joining the cookies again gives back the header they were split from. */
  lemma CookiesJoin(cookie: string)
    ensures Join(Cookies(cookie), "; ") == cookie
  {
    JoinSplitOn(cookie, "; ");
  }

  /** `cookies[k]` is the first cookie that starts with `prefix`. */
  predicate FirstMatchAt(cookies: seq<string>, prefix: string, k: int) {
    0 <= k < |cookies| && StartsWith(cookies[k], prefix) &&
    forall j :: 0 <= j < k ==> !StartsWith(cookies[j], prefix)
  }

  /** Past a first cookie without the prefix, the first match moves one
      place. */
  lemma FirstMatchShift(cookies: seq<string>, prefix: string, k: int)
    requires |cookies| > 0 && !StartsWith(cookies[0], prefix) && k >= 1
    ensures FirstMatchAt(cookies, prefix, k) <==> FirstMatchAt(cookies[1..], prefix, k - 1)
  {
    if FirstMatchAt(cookies[1..], prefix, k - 1) {
      forall j | 1 <= j < k
        ensures !StartsWith(cookies[j], prefix)
      {
        assert cookies[j] == cookies[1..][j - 1];
      }
    }
    if FirstMatchAt(cookies, prefix, k) {
      forall j | 0 <= j < k - 1
        ensures !StartsWith(cookies[1..][j], prefix)
      {
        assert cookies[1..][j] == cookies[j + 1];
      }
    }
  }

  /** `cookies.find(c => c.startsWith(prefix))`: the first cookie with the
      prefix, or nothing when no cookie has it. */
  function FirstWithPrefix(cookies: seq<string>, prefix: string): (r: Option<string>)
    ensures r.Some? ==> exists k :: FirstMatchAt(cookies, prefix, k) && cookies[k] == r.value
    ensures forall k :: FirstMatchAt(cookies, prefix, k) ==> r == Some(cookies[k])
    ensures r.None? <==> forall i :: 0 <= i < |cookies| ==> !StartsWith(cookies[i], prefix)
  {
    if |cookies| == 0 then None
    else if StartsWith(cookies[0], prefix) then
      assert FirstMatchAt(cookies, prefix, 0);
      Some(cookies[0])
    else
      var r := FirstWithPrefix(cookies[1..], prefix);
      assert forall i :: 1 <= i < |cookies| ==> cookies[i] == cookies[1..][i - 1];
      assert forall k :: FirstMatchAt(cookies, prefix, k) ==> k >= 1 && FirstMatchAt(cookies[1..], prefix, k - 1) by {
        forall k | FirstMatchAt(cookies, prefix, k) {
          FirstMatchShift(cookies, prefix, k);
        }
      }
      if r.Some? then
        var k :| FirstMatchAt(cookies[1..], prefix, k) && cookies[1..][k] == r.value;
        FirstMatchShift(cookies, prefix, k + 1);
        r
      else r
  }

  /** `c.split('=')[1]` for a cookie `name=...`: the text between the first
      and the second `=`. */
  function CookieValue(c: string, name: string): (r: string)
    requires StartsWith(c, name + "=") && '=' !in name
    ensures |Split(c, '=')| >= 2 && Split(c, '=')[1] == r
  {
    var rest := c[|name| + 1..];
    assert c == name + ['='] + rest;
    SplitFirst(name, '=', rest);
    Split(rest, '=')[0]
  }

  predicate IsQuote(c: char) {
    c == '"' || c == '\''
  }

  /** `s.replace(/^["']|["']$/g, '')`: at most one quote is dropped at each
      end. */
  function StripQuotes(s: string): (r: string)
    ensures |s| - 2 <= |r| <= |s|
  {
    var a := if |s| > 0 && IsQuote(s[0]) then s[1..] else s;
    if |a| > 0 && IsQuote(a[|a| - 1]) then a[..|a| - 1] else a
  }

  /** A quoted value loses exactly its two quotes, whatever is inside. */
  lemma StripQuotesWrapped(q1: char, v: string, q2: char)
    requires IsQuote(q1) && IsQuote(q2)
    ensures StripQuotes([q1] + v + [q2]) == v
  {
    var s := [q1] + v + [q2];
    assert s[1..] == v + [q2];
    assert (v + [q2])[..|v|] == v;
  }

  /** A value without quotes at its ends is kept. */
  lemma StripQuotesPlain(v: string)
    requires |v| > 0 ==> !IsQuote(v[0]) && !IsQuote(v[|v| - 1])
    ensures StripQuotes(v) == v
  {
  }

  /** A quote only at the start is dropped on its own. */
  lemma StripQuotesLeading(q: char, v: string)
    requires IsQuote(q)
    requires |v| > 0 ==> !IsQuote(v[|v| - 1])
    ensures StripQuotes([q] + v) == v
  {
    assert ([q] + v)[1..] == v;
  }

  /** A quote only at the end is dropped on its own. */
  lemma StripQuotesTrailing(v: string, q: char)
    requires IsQuote(q)
    requires |v| > 0 ==> !IsQuote(v[0])
    ensures StripQuotes(v + [q]) == v
  {
    assert (v + [q])[..|v|] == v;
  }

  /** A lone quote is both the first and the last character: it goes, and
      nothing else does. */
  lemma StripQuotesLone(q: char)
    requires IsQuote(q)
    ensures StripQuotes([q]) == ""
  {
  }

  /** The outcome of `getUsernameFromCookies`: no `username` cookie
      (`null`), a name, or a `URIError` from `decodeURIComponent`. */
  datatype Lookup = Absent | Found(value: string) | Throws

  function Username(cookie: string): (r: Lookup)
    ensures r.Absent? <==> FirstWithPrefix(Cookies(cookie), "username=").None?
    ensures r.Throws? <==>
      var c := FirstWithPrefix(Cookies(cookie), "username=");
      c.Some? && StartsWith(c.value, "username" + "=") && Decode(CookieValue(c.value, "username")).None?
  {
    match FirstWithPrefix(Cookies(cookie), "username=")
      case None => Absent
      case Some(c) =>
        assert "username" + "=" == "username=";
        match Decode(CookieValue(c, "username"))
          case None => Throws
          case Some(u) => Found(StripQuotes(u))
  }

  /** `checkSplitLeaseCookies().isLoggedIn`: the first `loggedIn` cookie
      has the value `true` (up to a second `=`). */
  predicate LoggedIn(cookie: string)
    ensures LoggedIn(cookie) ==> exists k ::
      FirstMatchAt(Cookies(cookie), "loggedIn=", k) && StartsWith(Cookies(cookie)[k], "loggedIn=true")
  {
    var c := FirstWithPrefix(Cookies(cookie), "loggedIn=");
    if c.Some? then
      TrueCookiePrefix(c.value);
      CookieValue(c.value, "loggedIn") == "true"
    else false
  }

  /** A `loggedIn` cookie whose value is `true` starts with `loggedIn=true`. */
  lemma TrueCookiePrefix(c: string)
    requires StartsWith(c, "loggedIn=")
    ensures StartsWith(c, "loggedIn" + "=")
    ensures CookieValue(c, "loggedIn") == "true" ==> StartsWith(c, "loggedIn=true")
  {
    assert "loggedIn" + "=" == "loggedIn=";
    assert "loggedIn" + "=" + "true" == "loggedIn=true";
    assert '=' !in "loggedIn" by {
      assert forall i :: 0 <= i < 8 ==> "loggedIn"[i] != '=';
    }
    if CookieValue(c, "loggedIn") == "true" {
      ValuePrefix(c, "loggedIn");
    }
  }

  /** A cookie starts with its name, `=` and its value. */
  lemma ValuePrefix(c: string, name: string)
    requires StartsWith(c, name + "=") && '=' !in name
    ensures StartsWith(c, name + "=" + CookieValue(c, name))
  {
    var rest := c[|name| + 1..];
    var v := CookieValue(c, name);
    SplitOnHead(rest, "=");
    assert c == (name + "=") + rest;
    assert c[..|name| + 1 + |v|] == (name + "=") + rest[..|v|];
  }

  /** Cookies written one after the other, none holding a `;`, are read
      back one by one. */
  lemma ReadCookies(parts: seq<string>)
    requires |parts| >= 1
    requires forall i :: 0 <= i < |parts| ==> ';' !in parts[i]
    ensures Cookies(Join(parts, "; ")) == parts
  {
    SplitOnJoin(parts, "; ");
  }

  /** A cookie `name=v` whose value holds no `=` has the value `v`. */
  lemma CookieValueOf(name: string, v: string)
    requires '=' !in name && '=' !in v
    ensures StartsWith(name + "=" + v, name + "=")
    ensures CookieValue(name + "=" + v, name) == v
  {
    var c := name + "=" + v;
    assert c[..|name| + 1] == name + "=";
    assert c[|name| + 1..] == v;
    FindNoChar(v, '=');
  }

  /** A cookie `v` placed after cookies without `prefix` is the first
      match, and a cookie list without `;` stays so. */
  lemma PlacedCookie(before: seq<string>, v: string, after: seq<string>, prefix: string)
    requires forall i :: 0 <= i < |before| ==> ';' !in before[i] && !StartsWith(before[i], prefix)
    requires forall i :: 0 <= i < |after| ==> ';' !in after[i]
    requires ';' !in v && StartsWith(v, prefix)
    ensures var parts := before + [v] + after;
      |parts| >= 1 && (forall i :: 0 <= i < |parts| ==> ';' !in parts[i]) &&
      FirstMatchAt(parts, prefix, |before|) && parts[|before|] == v
  {
    var parts := before + [v] + after;
    forall i | 0 <= i < |parts|
      ensures ';' !in parts[i]
    {
      if i < |before| {
        assert parts[i] == before[i];
      } else if i > |before| {
        assert parts[i] == after[i - |before| - 1];
      }
    }
    forall j | 0 <= j < |before|
      ensures !StartsWith(parts[j], prefix)
    {
      assert parts[j] == before[j];
    }
  }

  /** The value of `username=v` is `v` when `v` holds no `=`. */
  lemma UsernameValue(v: string)
    requires '=' !in v
    ensures StartsWith("username=" + v, "username" + "=")
    ensures CookieValue("username=" + v, "username") == v
  {
    assert "username" + "=" + v == "username=" + v;
    CookieValueOf("username", v);
  }

  /** The value `v` of the first `username` cookie decides the lookup. */
  lemma UsernameAt(parts: seq<string>, k: int, v: string)
    requires |parts| >= 1 && forall i :: 0 <= i < |parts| ==> ';' !in parts[i]
    requires '=' !in v
    requires FirstMatchAt(parts, "username=", k) && parts[k] == "username=" + v
    ensures Username(Join(parts, "; ")) ==
      match Decode(v) case None => Throws case Some(u) => Found(StripQuotes(u))
  {
    ReadCookies(parts);
    UsernameValue(v);
  }

  /** An encoded name holds neither `;` nor `=`, and the cookie written
      from it starts with `username=`. */
  lemma EncodedCookie(name: string)
    ensures var e := Encode(name);
      ';' !in "username=" + e && '=' !in e && StartsWith("username=" + e, "username=")
  {
    EncodeNoDelimiters(name);
    UsernameCookie(Encode(name));
  }

  /** The cookie `username=v` starts with `username=` and holds a `;` only
      where `v` does. */
  lemma UsernameCookie(v: string)
    requires ';' !in v
    ensures ';' !in "username=" + v && StartsWith("username=" + v, "username=")
  {
    var c := "username=" + v;
    forall j | 0 <= j < |c|
      ensures c[j] != ';'
    {
      if j >= 9 {
        assert c[j] == v[j - 9];
      }
    }
    assert c[..9] == "username=";
  }

  /** A user name written with `encodeURIComponent` is read back, up to a
      pair of surrounding quotes, from the first `username` cookie wherever
      it stands among the others. */
  lemma UsernameRoundTrip(before: seq<string>, name: string, after: seq<string>)
    requires forall i :: 0 <= i < |before| ==> ';' !in before[i] && !StartsWith(before[i], "username=")
    requires forall i :: 0 <= i < |after| ==> ';' !in after[i]
    ensures Username(Join(before + ["username=" + Encode(name)] + after, "; ")) == Found(StripQuotes(name))
  {
    var e := Encode(name);
    EncodedCookie(name);
    PlacedCookie(before, "username=" + e, after, "username=");
    UsernameAt(before + ["username=" + e] + after, |before|, e);
    DecodeEncode(name);
  }

  /** A first `username` cookie whose value does not decode makes the
      lookup throw, wherever it stands. */
  lemma UsernameThrows(before: seq<string>, v: string, after: seq<string>)
    requires forall i :: 0 <= i < |before| ==> ';' !in before[i] && !StartsWith(before[i], "username=")
    requires forall i :: 0 <= i < |after| ==> ';' !in after[i]
    requires ';' !in v && '=' !in v && Decode(v).None?
    ensures Username(Join(before + ["username=" + v] + after, "; ")) == Throws
  {
    UsernameCookie(v);
    PlacedCookie(before, "username=" + v, after, "username=");
    UsernameAt(before + ["username=" + v] + after, |before|, v);
  }

  /** The cookie `username=%` makes the lookup throw. */
  lemma UsernameLonePercent()
    ensures Username("username=%") == Throws
  {
    LonePercent();
    var none: seq<string> := [];
    UsernameThrows(none, "%", none);
    assert "username=" + "%" == "username=%";
    assert none + ["username=%"] + none == ["username=%"];
  }

  /** The value `true` in the first `loggedIn` cookie logs the user in. */
  lemma LoggedInAt(parts: seq<string>, k: int)
    requires |parts| >= 1 && forall i :: 0 <= i < |parts| ==> ';' !in parts[i]
    requires FirstMatchAt(parts, "loggedIn=", k) && parts[k] == "loggedIn" + "=" + "true"
    ensures LoggedIn(Join(parts, "; "))
  {
    ReadCookies(parts);
    TrueValue();
    assert FirstWithPrefix(parts, "loggedIn=") == Some(parts[k]);
  }

  /** The cookie `loggedIn=true` has the value `true`. */
  lemma TrueValue()
    ensures StartsWith("loggedIn" + "=" + "true", "loggedIn" + "=")
    ensures CookieValue("loggedIn" + "=" + "true", "loggedIn") == "true"
  {
    assert '=' !in "loggedIn" by {
      assert forall i :: 0 <= i < 8 ==> "loggedIn"[i] != '=';
    }
    assert '=' !in "true";
    CookieValueOf("loggedIn", "true");
  }

  /** A `loggedIn=true` cookie logs the user in when no earlier cookie is a
      `loggedIn` cookie. */
  lemma LoggedInRoundTrip(before: seq<string>, after: seq<string>)
    requires forall i :: 0 <= i < |before| ==> ';' !in before[i] && !StartsWith(before[i], "loggedIn=")
    requires forall i :: 0 <= i < |after| ==> ';' !in after[i]
    ensures LoggedIn(Join(before + ["loggedIn=true"] + after, "; "))
  {
    var v := "loggedIn" + "=" + "true";
    assert v == "loggedIn=true";
    assert StartsWith(v, "loggedIn=") by {
      assert v[..9] == "loggedIn=";
    }
    PlacedCookie(before, v, after, "loggedIn=");
    LoggedInAt(before + [v] + after, |before|);
  }

  /** Without a `loggedIn` cookie nobody is logged in by cookie. */
  lemma NoCookieNotLoggedIn(cookie: string)
    requires forall c :: c in Cookies(cookie) ==> !StartsWith(c, "loggedIn=")
    ensures !LoggedIn(cookie)
  {
  }

  // ---------------------------------------------------------------------
  // Session and cache windows

  /** 24 hours in milliseconds. */
  const SessionMs: int := 24 * 60 * 60 * 1000
  /** One minute in milliseconds. */
  const CacheMs: int := 60 * 1000

  /** A stored value counts when present and not empty. */
  predicate Truthy(v: Option<string>) {
    v.Some? && v.value != ""
  }

  function Get(storage: map<string, string>, key: string): (r: Option<string>)
    ensures r.Some? <==> key in storage
  {
    if key in storage then Some(storage[key]) else None
  }

  /** `lastAuthTime && (Date.now() - parseInt(lastAuthTime)) < 24 h`; a
      time that does not parse (`NaN`) never counts. */
  predicate SessionValid(lastAuth: Option<string>, now: int)
    ensures SessionValid(lastAuth, now) ==> lastAuth.Some? && ParseInt(lastAuth.value).Some?
    ensures Truthy(lastAuth) && ParseInt(lastAuth.value).Some? ==>
      (SessionValid(lastAuth, now) <==> now < ParseInt(lastAuth.value).value + 86400000)
  {
    Truthy(lastAuth) && ParseInt(lastAuth.value).Some? && now - ParseInt(lastAuth.value).value < SessionMs
  }

  /** A session stamped at time `t` is valid until 24 hours later. */
  lemma SessionWindow(t: int, now: int)
    ensures SessionValid(Some(IntToString(t)), now) <==> now - t < SessionMs
  {
    ParseIntToString(t);
  }

  const TokenKey: string := "splitlease_auth_token"
  const SessionKey: string := "splitlease_session_id"
  const LastAuthKey: string := "splitlease_last_auth"

  /** What `checkAuthStatus` decides: `None` when reading the user name
      throws; logged in by the `loggedIn` cookie, or else by a token, a
      session id or a legacy `splitlease_auth` cookie together with a
      session younger than 24 hours. */
  function AuthDecision(cookie: string, storage: map<string, string>, now: int): (r: Option<bool>)
    ensures r.None? <==> Username(cookie).Throws?
    ensures r.Some? && LoggedIn(cookie) ==> r.value
    ensures r.Some? && !LoggedIn(cookie) ==>
      (r.value <==>
        (Truthy(Get(storage, TokenKey)) || Truthy(Get(storage, SessionKey)) ||
         FirstWithPrefix(Cookies(cookie), "splitlease_auth=").Some?) &&
        SessionValid(Get(storage, LastAuthKey), now))
  {
    if Username(cookie).Throws? then None
    else if LoggedIn(cookie) then Some(true)
    else
      Some((Truthy(Get(storage, TokenKey)) || Truthy(Get(storage, SessionKey)) ||
            FirstWithPrefix(Cookies(cookie), "splitlease_auth=").Some?) &&
           SessionValid(Get(storage, LastAuthKey), now))
  }

  /** With a stored token and a session stamped at `t`, and no `username`
      or `loggedIn` cookie, the user is logged in exactly within 24 hours
      of `t`. */
  lemma AuthWithinDay(cookie: string, storage: map<string, string>, t: int, now: int)
    requires FirstWithPrefix(Cookies(cookie), "username=").None?
    requires FirstWithPrefix(Cookies(cookie), "loggedIn=").None?
    requires TokenKey in storage && storage[TokenKey] != ""
    requires LastAuthKey in storage && storage[LastAuthKey] == IntToString(t)
    ensures AuthDecision(cookie, storage, now) == Some(now - t < SessionMs)
  {
    SessionWindow(t, now);
  }

  const CacheAuthKey: string := "bubble_market_research_auth"
  const CacheTimeKey: string := "bubble_market_research_auth_time"

  /** The cache step of `checkBubbleAuthState`, as a result and the storage
      after it: with both entries present, an age under a minute gives the
      cached flag; an older (or unreadable) time removes both entries. */
  function CacheLookup(storage: map<string, string>, now: int): (r: (Option<bool>, map<string, string>))
    ensures r.0.Some? ==> r.1 == storage && CacheAuthKey in storage && r.0.value == (storage[CacheAuthKey] == "true")
    ensures r.1 != storage ==> r.1 == storage - {CacheAuthKey, CacheTimeKey} && r.0.None?
    ensures CacheAuthKey !in r.1 ==> r.0.None?
  {
    var cachedAuth := Get(storage, CacheAuthKey);
    var cachedTime := Get(storage, CacheTimeKey);
    if Truthy(cachedAuth) && Truthy(cachedTime) then
      var t := ParseInt(cachedTime.value);
      if t.Some? && now - t.value < CacheMs then (Some(cachedAuth.value == "true"), storage)
      else (None, storage - {CacheAuthKey, CacheTimeKey})
    else (None, storage)
  }

  /** A cache written at time `t` is used for one minute; after that the
      entries are gone and no later lookup finds anything. */
  lemma CacheWindow(storage: map<string, string>, t: int, now: int, later: int)
    requires CacheAuthKey in storage && storage[CacheAuthKey] != ""
    requires CacheTimeKey in storage && storage[CacheTimeKey] == IntToString(t)
    ensures CacheLookup(storage, now).0.Some? <==> now - t < CacheMs
    ensures now - t >= CacheMs ==>
      CacheLookup(CacheLookup(storage, now).1, later) == (None, CacheLookup(storage, now).1)
  {
    ParseIntToString(t);
  }

  // ---------------------------------------------------------------------
  // Explore buttons and the search redirect

  /** The days (numbered 1 = Sunday .. 7 = Saturday) an explore button asks
      for, from its lower-cased text: weekends first, then weeks of the
      month, then weeknights, otherwise every day. */
  function ExploreDays(buttonText: string): (r: string)
    ensures r in {"6,7,1,2", "1,2,3,4,5,6,7", "2,3,4,5,6"}
    ensures r == "6,7,1,2" <==> Contains(LowerAscii(buttonText), "weekend")
    ensures r == "2,3,4,5,6" <==>
      !Contains(LowerAscii(buttonText), "weekend") &&
      !Contains(LowerAscii(buttonText), "weeks of the month") &&
      Contains(LowerAscii(buttonText), "weeknight")
    ensures r == "1,2,3,4,5,6,7" <==>
      !Contains(LowerAscii(buttonText), "weekend") &&
      (Contains(LowerAscii(buttonText), "weeks of the month") ||
       !Contains(LowerAscii(buttonText), "weeknight"))
  {
    assert "6,7,1,2"[0] != "2,3,4,5,6"[0] && "2,3,4,5,6"[0] != "1,2,3,4,5,6,7"[0] && "1,2,3,4,5,6,7"[0] != "6,7,1,2"[0];
    var t := LowerAscii(buttonText);
    if Contains(t, "weekend") then "6,7,1,2"
    else if Contains(t, "weeks of the month") then "1,2,3,4,5,6,7"
    else if Contains(t, "weeknight") then "2,3,4,5,6"
    else "1,2,3,4,5,6,7"
  }

  /** `redirectToSearch`: the search page, with the days when there are
      any. */
  function SearchRedirect(daysSelected: string): (r: string)
    ensures ValidateUrl(r)
    ensures StartsWith(r, BaseUrl() + "/search")
    ensures daysSelected != "" ==> EndsWith(r, "?days-selected=" + daysSelected)
  {
    var search := "https://app.split.lease/search";
    if daysSelected == "" then
      assert StartsWith(search, search) by { ConcatAffixes(search, ""); assert search + "" == search; }
      SearchUnderBase(search);
      search
    else
      var query := "?days-selected=" + daysSelected;
      ConcatAffixes(search, query);
      SearchUnderBase(search + query);
      search + query
  }

  lemma SearchUnderBase(url: string)
    requires StartsWith(url, "https://app.split.lease/search")
    ensures ValidateUrl(url) && StartsWith(url, BaseUrl() + "/search")
  {
    var path := url[|BaseUrl()|..];
    assert url == BaseUrl() + path;
    UnderBaseUrlValid(path);
  }

  /** Each explore button asks for a list of distinct day numbers: the
      weekend list is Friday through Monday, the weeknight list Monday
      through Friday, the others all seven days. */
  lemma ExploreDayLists(buttonText: string)
    ensures var d := Split(ExploreDays(buttonText), ',');
      d == ["6", "7", "1", "2"] || d == ["2", "3", "4", "5", "6"] || d == ["1", "2", "3", "4", "5", "6", "7"]
  {
    var r := ExploreDays(buttonText);
    if r == "6,7,1,2" {
      WeekendList();
    } else if r == "2,3,4,5,6" {
      WeeknightList();
    } else {
      WholeWeekList();
    }
  }

  lemma WeekendList()
    ensures Split("6,7,1,2", ',') == ["6", "7", "1", "2"]
  {
    assert Join(["2"], [',']) == "2";
    assert ["1", "2"][1..] == ["2"];
    assert Join(["1", "2"], [',']) == "1,2";
    assert ["7", "1", "2"][1..] == ["1", "2"];
    assert Join(["7", "1", "2"], [',']) == "7,1,2";
    assert ["6", "7", "1", "2"][1..] == ["7", "1", "2"];
    assert Join(["6", "7", "1", "2"], [',']) == "6,7,1,2";
    SplitJoin(["6", "7", "1", "2"], ',');
  }

  lemma WeeknightList()
    ensures Split("2,3,4,5,6", ',') == ["2", "3", "4", "5", "6"]
  {
    assert Join(["6"], [',']) == "6";
    assert ["5", "6"][1..] == ["6"];
    assert Join(["5", "6"], [',']) == "5,6";
    assert ["4", "5", "6"][1..] == ["5", "6"];
    assert Join(["4", "5", "6"], [',']) == "4,5,6";
    assert ["3", "4", "5", "6"][1..] == ["4", "5", "6"];
    assert Join(["3", "4", "5", "6"], [',']) == "3,4,5,6";
    assert ["2", "3", "4", "5", "6"][1..] == ["3", "4", "5", "6"];
    assert Join(["2", "3", "4", "5", "6"], [',']) == "2,3,4,5,6";
    SplitJoin(["2", "3", "4", "5", "6"], ',');
  }

  lemma WholeWeekList()
    ensures Split("1,2,3,4,5,6,7", ',') == ["1", "2", "3", "4", "5", "6", "7"]
  {
    assert Join(["7"], [',']) == "7";
    assert ["6", "7"][1..] == ["7"];
    assert Join(["6", "7"], [',']) == "6,7";
    assert ["5", "6", "7"][1..] == ["6", "7"];
    assert Join(["5", "6", "7"], [',']) == "5,6,7";
    assert ["4", "5", "6", "7"][1..] == ["5", "6", "7"];
    assert Join(["4", "5", "6", "7"], [',']) == "4,5,6,7";
    assert ["3", "4", "5", "6", "7"][1..] == ["4", "5", "6", "7"];
    assert Join(["3", "4", "5", "6", "7"], [',']) == "3,4,5,6,7";
    assert ["2", "3", "4", "5", "6", "7"][1..] == ["3", "4", "5", "6", "7"];
    assert Join(["2", "3", "4", "5", "6", "7"], [',']) == "2,3,4,5,6,7";
    assert ["1", "2", "3", "4", "5", "6", "7"][1..] == ["2", "3", "4", "5", "6", "7"];
    assert Join(["1", "2", "3", "4", "5", "6", "7"], [',']) == "1,2,3,4,5,6,7";
    SplitJoin(["1", "2", "3", "4", "5", "6", "7"], ',');
  }

  // ---------------------------------------------------------------------
  // Support cards

  datatype SupportAction = OpenChat | Navigate(href: string) | NoAction

  /** `handleSupportAction`: the card's text, lower-cased, picks the chat,
      an email, a call or the FAQ; any other text does nothing. */
  function SupportActionFor(kind: string): (r: SupportAction)
    ensures r == NoAction <==> LowerAscii(kind) !in {"chat", "email", "call", "faq"}
    ensures r.Navigate? ==> LowerAscii(kind) in {"email", "call", "faq"}
  {
    var k := LowerAscii(kind);
    if k == "chat" then OpenChat
    else if k == "email" then Navigate("mailto:support@splitlease.com")
    else if k == "call" then Navigate("tel:1-800-SPLIT-LEASE")
    else if k == "faq" then Navigate("https://app.split.lease/faq")
    else NoAction
  }

  /** The match ignores the case of ASCII letters. */
  lemma SupportIgnoresCase()
    ensures SupportActionFor("Chat") == OpenChat
    ensures SupportActionFor("EMAIL") == Navigate("mailto:support@splitlease.com")
    ensures SupportActionFor("Call") == Navigate("tel:1-800-SPLIT-LEASE")
    ensures SupportActionFor("FAQ") == Navigate("https://app.split.lease/faq")
  {
    assert "chat"[1] != "call"[1];
    assert LowerAscii("Chat") == "chat";
    assert LowerAscii("EMAIL") == "email";
    assert LowerAscii("Call") == "call";
    assert LowerAscii("FAQ") == "faq";
  }

  // ---------------------------------------------------------------------
  // Import listing

  /** The guards of `handleImportListing`: both fields non-empty (not
      trimmed), an http or https URL, an email with `@` and `.`. */
  predicate ImportAccepted(url: string, email: string)
    ensures ImportAccepted(url, email) ==> |url| >= 7 && url[..4] == "http" && '@' in email && '.' in email
  {
    FooterForm.HttpPrefix(url);
    ContainsChar(email, '@');
    ContainsChar(email, '.');
    url != "" && email != "" &&
    (StartsWith(url, "http://") || StartsWith(url, "https://")) &&
    Contains(email, "@") && Contains(email, ".")
  }

  /** The home page and the footer accept exactly the same imports, though
      only the footer trims before its emptiness test. */
  lemma SameImportRule(url: string, email: string)
    ensures ImportAccepted(url, email) <==> FooterForm.ImportAccepted(url, email)
  {
    FooterForm.ImportAcceptedIff(url, email);
    ContainsChar(email, '@');
    ContainsChar(email, '.');
  }

  // ---------------------------------------------------------------------
  // The page's state

  class Home {
    var cookie: string
    var storage: map<string, string>
    /** The global `isUserLoggedIn`. */
    var isUserLoggedIn: bool
    var importUrl: string
    var importEmail: string
    var buttonText: string
    var buttonDisabled: bool
    /** The caption the pending import timer will put back. */
    var savedText: string

    constructor (cookie: string, storage: map<string, string>, buttonText: string)
      ensures this.cookie == cookie && this.storage == storage && this.buttonText == buttonText
      ensures !isUserLoggedIn && !buttonDisabled && importUrl == "" && importEmail == ""
    {
      this.cookie := cookie;
      this.storage := storage;
      this.buttonText := buttonText;
      isUserLoggedIn := false;
      importUrl := "";
      importEmail := "";
      buttonDisabled := false;
      savedText := buttonText;
    }

    /** `checkAuthStatus`: `None` is the exception thrown while reading the
        user name, which leaves the flag as it was. */
    method CheckAuthStatus(now: int) returns (r: Option<bool>)
      modifies this
      ensures r == AuthDecision(cookie, storage, now)
      ensures r.Some? ==> isUserLoggedIn == r.value
      ensures r.None? ==> isUserLoggedIn == old(isUserLoggedIn)
      ensures cookie == old(cookie) && storage == old(storage)
      ensures importUrl == old(importUrl) && importEmail == old(importEmail)
      ensures buttonText == old(buttonText) && buttonDisabled == old(buttonDisabled)
    {
      var isLoggedIn := LoggedIn(cookie);
      var username := Username(cookie);
      if username.Throws? {
        return None;
      }
      if isLoggedIn {
        isUserLoggedIn := true;
        return Some(true);
      }
      var authToken := Get(storage, TokenKey);
      var sessionId := Get(storage, SessionKey);
      var lastAuthTime := Get(storage, LastAuthKey);
      var authCookie := FirstWithPrefix(Cookies(cookie), "splitlease_auth=");
      var sessionValid := SessionValid(lastAuthTime, now);
      if (Truthy(authToken) || Truthy(sessionId) || authCookie.Some?) && sessionValid {
        isUserLoggedIn := true;
        r := Some(true);
      } else {
        isUserLoggedIn := false;
        r := Some(false);
      }
    }

    /** The cache step of `checkBubbleAuthState`, run when the message to
        the frame cannot be sent. */
    method CheckCachedAuth(now: int) returns (r: Option<bool>)
      modifies this
      ensures (r, storage) == CacheLookup(old(storage), now)
      ensures cookie == old(cookie) && isUserLoggedIn == old(isUserLoggedIn)
      ensures importUrl == old(importUrl) && importEmail == old(importEmail)
      ensures buttonText == old(buttonText) && buttonDisabled == old(buttonDisabled)
    {
      var cachedAuth := Get(storage, CacheAuthKey);
      var cachedTime := Get(storage, CacheTimeKey);
      if Truthy(cachedAuth) && Truthy(cachedTime) {
        var t := ParseInt(cachedTime.value);
        if t.Some? && now - t.value < CacheMs {
          return Some(cachedAuth.value == "true");
        } else {
          storage := storage - {CacheAuthKey, CacheTimeKey};
        }
      }
      return None;
    }

    method SetImportFields(url: string, email: string)
      modifies this
      ensures importUrl == url && importEmail == email
      ensures cookie == old(cookie) && storage == old(storage) && isUserLoggedIn == old(isUserLoggedIn)
      ensures buttonText == old(buttonText) && buttonDisabled == old(buttonDisabled)
      ensures savedText == old(savedText)
    {
      importUrl := url;
      importEmail := email;
    }

    /** `handleImportListing`, from a click on the enabled button: a
        rejected import changes nothing; an accepted one shows
        "Importing..." on the disabled button until the timer fires. */
    method ImportListing()
      requires !buttonDisabled
      modifies this
      ensures !ImportAccepted(old(importUrl), old(importEmail)) ==> unchanged(this)
      ensures ImportAccepted(old(importUrl), old(importEmail)) ==>
        buttonText == "Importing..." && buttonDisabled && savedText == old(buttonText)
      ensures importUrl == old(importUrl) && importEmail == old(importEmail)
      ensures cookie == old(cookie) && storage == old(storage) && isUserLoggedIn == old(isUserLoggedIn)
    {
      var url := importUrl;
      var email := importEmail;
      if url == "" || email == "" {
        return;
      }
      if !StartsWith(url, "http://") && !StartsWith(url, "https://") {
        return;
      }
      if !Contains(email, "@") || !Contains(email, ".") {
        return;
      }
      savedText := buttonText;
      buttonText := "Importing...";
      buttonDisabled := true;
    }

    /** The import timer, two seconds later: the caption comes back, the
        button is enabled and both fields are cleared. */
    method FinishImportListing()
      requires buttonDisabled
      modifies this
      ensures buttonText == old(savedText) && !buttonDisabled
      ensures importUrl == "" && importEmail == ""
      ensures cookie == old(cookie) && storage == old(storage) && isUserLoggedIn == old(isUserLoggedIn)
    {
      buttonText := savedText;
      buttonDisabled := false;
      importUrl := "";
      importEmail := "";
    }
  }
}
