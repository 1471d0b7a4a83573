/** The parts of the browser and framework the components talk to, as far as
    the model needs them: local storage, the cookie jar behind
    `document.cookie`, the window's location and history, the client router,
    camera streams and the log of HTTP requests sent. */
module Browser {
  import opened Text

  /** `window.localStorage`: string keys, values of the caller's choosing. */
  class LocalStorage<V> {
    var items: map<string, V>

    constructor (items: map<string, V>)
      ensures this.items == items
    {
      this.items := items;
    }

    function GetItem(key: string): (r: Option<V>)
      reads this
      ensures r.Some? <==> key in items
      ensures r.Some? ==> r.value == items[key]
    {
      if key in items then Some(items[key]) else None
    }

    method SetItem(key: string, value: V)
      modifies this
      ensures items == old(items)[key := value]
    {
      items := items[key := value];
    }
  }

  // ---------------------------------------------------------------------
  // Cookies: the storage model of RFC 6265 (section 5.2 parses an assigned
  // string, section 5.3 stores it, section 5.4 renders the jar), reduced to
  // one domain and one path, with no clock: a cookie is either kept or, when
  // its Max-Age is zero or negative, removed at once. Of section 5.3 only
  // the same-name replacement and the Max-Age removal are kept.
  // ---------------------------------------------------------------------

  datatype Cookie = Cookie(name: string, value: string)

  /** A parsed assignment: the cookie and its Max-Age, if it had a valid one. */
  datatype CookieWrite = CookieWrite(cookie: Cookie, maxAge: Option<int>)

  predicate IsWsp(c: char) {
    c == ' ' || c == '\t'
  }

  /** How many blanks `s` starts with. */
  function LeadingWsp(s: string): (n: nat)
    ensures n <= |s|
  {
    if s != [] && IsWsp(s[0]) then 1 + LeadingWsp(s[1..]) else 0
  }

  /** How many blanks `s` ends with. */
  function TrailingWsp(s: string): (n: nat)
    ensures n <= |s|
  {
    if s != [] && IsWsp(s[|s| - 1]) then 1 + TrailingWsp(s[..|s| - 1]) else 0
  }

  /** Leading and trailing blanks removed. */
  function TrimWsp(s: string): string {
    var t := s[LeadingWsp(s)..];
    t[..|t| - TrailingWsp(t)]
  }

  /** Trimming adds no character. */
  lemma {:induction false} TrimWspKeepsOut(s: string, c: char)
    requires c !in s
    ensures c !in TrimWsp(s)
  {
    var t := s[LeadingWsp(s)..];
    assert forall x :: x in t ==> x in s;
    assert forall x :: x in t[..|t| - TrailingWsp(t)] ==> x in t;
  }

  lemma {:induction false} DropLeadingWsp(s: string)
    requires s != [] && IsWsp(s[0])
    ensures TrimWsp(s) == TrimWsp(s[1..])
  {
    assert s[LeadingWsp(s)..] == s[1..][LeadingWsp(s[1..])..];
  }

  lemma {:induction false} NoWspAtEnds(s: string)
    requires s != [] ==> !IsWsp(s[0]) && !IsWsp(s[|s| - 1])
    ensures TrimWsp(s) == s
  {
    assert s[0..] == s;
  }

  function LowerAscii(c: char): char {
    if 'A' <= c <= 'Z' then (c as int + 32) as char else c
  }

  /** ASCII case-insensitive comparison with a lower-case word. */
  predicate MatchesIgnoringCase(s: string, lower: string) {
    |s| == |lower| && forall i :: 0 <= i < |s| ==> LowerAscii(s[i]) == lower[i]
  }

  predicate AllDigits(s: string) {
    forall i :: 0 <= i < |s| ==> '0' <= s[i] <= '9'
  }

  function DigitsValue(s: string): nat
    requires AllDigits(s)
  {
    if s == [] then 0 else DigitsValue(s[..|s| - 1]) * 10 + (s[|s| - 1] as int - '0' as int)
  }

  /** The Max-Age attribute value: an optional minus sign and digits. */
  function ParseDelta(v: string): Option<int> {
    if v != [] && v[0] == '-' && |v| > 1 && AllDigits(v[1..]) then Some(0 - DigitsValue(v[1..]) as int)
    else if v != [] && AllDigits(v) then Some(DigitsValue(v))
    else None
  }

  /** One attribute, `Max-Age=<delta>` in any letter case, or none. */
  function AttributeMaxAge(av: string): Option<int> {
    if MatchesIgnoringCase(TrimWsp(UpTo(av, '=')), "max-age") then ParseDelta(TrimWsp(After(av, '=')))
    else None
  }

  /** The Max-Age of each attribute, in order. */
  function AttributeValues(avs: seq<string>): (r: seq<Option<int>>)
    ensures |r| == |avs|
    ensures forall i :: 0 <= i < |avs| ==> r[i] == AttributeMaxAge(avs[i])
  {
    Map(AttributeMaxAge, avs)
  }

  function LastSome(xs: seq<Option<int>>): Option<int> {
    if xs == [] then None
    else if xs[|xs| - 1].Some? then xs[|xs| - 1]
    else LastSome(xs[..|xs| - 1])
  }

  /** The last valid Max-Age attribute wins. */
  function MaxAge(avs: seq<string>): Option<int> {
    LastSome(AttributeValues(avs))
  }

  /** Section 5.2: the name-value pair runs to the first ';'; a pair without
      '=' or with an empty name is ignored. */
  function ParseCookieWrite(text: string): (r: Option<CookieWrite>)
    ensures r.Some? ==> ValidCookie(r.value.cookie)
  {
    var pair := UpTo(text, ';');
    if '=' !in pair then None
    else
      var name := TrimWsp(UpTo(pair, '='));
      var value := TrimWsp(After(pair, '='));
      TrimWspKeepsOut(UpTo(pair, '='), ';');
      TrimWspKeepsOut(UpTo(pair, '='), '=');
      TrimWspKeepsOut(After(pair, '='), ';');
      if name == [] then None
      else Some(CookieWrite(Cookie(name, value), MaxAge(SplitAt(After(text, ';'), ';'))))
  }

  /** What section 5.2 lets through: a non-empty name without ';' or '=',
      a value without ';'. */
  predicate ValidCookie(c: Cookie) {
    c.name != [] && ';' !in c.name && '=' !in c.name && ';' !in c.value
  }

  predicate ValidJar(jar: seq<Cookie>) {
    forall i :: 0 <= i < |jar| ==> ValidCookie(jar[i])
  }

  predicate HasCookie(jar: seq<Cookie>, name: string) {
    exists i :: 0 <= i < |jar| && jar[i].name == name
  }

  function RemoveCookie(jar: seq<Cookie>, name: string): (r: seq<Cookie>)
    ensures forall c :: c in r <==> c in jar && c.name != name
  {
    if jar == [] then []
    else if jar[0].name == name then RemoveCookie(jar[1..], name)
    else [jar[0]] + RemoveCookie(jar[1..], name)
  }

  /** Section 5.3, step 11: a cookie replaces the one of the same name in
      place (it keeps the old creation time, hence its position). */
  function UpsertCookie(jar: seq<Cookie>, c: Cookie): (r: seq<Cookie>)
    ensures c in r
    ensures forall d :: d in r ==> d == c || (d in jar && d.name != c.name)
    ensures forall d :: d in jar && d.name != c.name ==> d in r
  {
    if jar == [] then [c]
    else if jar[0].name == c.name then [c] + UpsertCookie(jar[1..], c)
    else [jar[0]] + UpsertCookie(jar[1..], c)
  }

  /** `document.cookie = text`. Only Max-Age is acted on: the refusals of
      section 5.3, steps 6 (a foreign Domain) and 10 (HttpOnly from a
      script), are not modelled, so such a cookie is stored. */
  function AssignCookie(jar: seq<Cookie>, text: string): seq<Cookie> {
    match ParseCookieWrite(text)
    case None => jar
    case Some(w) =>
      if w.maxAge.Some? && w.maxAge.value <= 0 then RemoveCookie(jar, w.cookie.name)
      else UpsertCookie(jar, w.cookie)
  }

  /** Whatever is assigned, the jar holds only cookies section 5.2 lets through. */
  lemma {:induction false} AssignKeepsValid(jar: seq<Cookie>, text: string)
    requires ValidJar(jar)
    ensures ValidJar(AssignCookie(jar, text))
  {
    var r := AssignCookie(jar, text);
    forall i | 0 <= i < |r| ensures ValidCookie(r[i]) {
      assert r[i] in r;
      if r[i] !in jar {
        assert ParseCookieWrite(text).Some?;
      } else {
        var j :| 0 <= j < |jar| && jar[j] == r[i];
      }
    }
  }

  function Join(parts: seq<string>, sep: string): string {
    if parts == [] then []
    else if |parts| == 1 then parts[0]
    else parts[0] + sep + Join(parts[1..], sep)
  }

  function CookieRows(jar: seq<Cookie>): (r: seq<string>)
    ensures |r| == |jar|
    ensures forall i :: 0 <= i < |r| ==> r[i] == jar[i].name + "=" + jar[i].value
  {
    if jar == [] then [] else [jar[0].name + "=" + jar[0].value] + CookieRows(jar[1..])
  }

  /** Section 5.4, step 4: what reading `document.cookie` returns. */
  function RenderCookies(jar: seq<Cookie>): string {
    Join(CookieRows(jar), "; ")
  }

  /** The browser window: the cookie jar and the location. */
  class Window {
    var cookies: seq<Cookie>
    var pathname: string
    /** The query of `location.search`, as the pairs `URLSearchParams` reads. */
    var search: seq<(string, string)>

    constructor (cookies: seq<Cookie>, pathname: string, search: seq<(string, string)>)
      ensures this.cookies == cookies && this.pathname == pathname && this.search == search
    {
      this.cookies := cookies;
      this.pathname := pathname;
      this.search := search;
    }

    /** Reading `document.cookie`. */
    function CookieString(): string
      reads this
    {
      RenderCookies(cookies)
    }

    /** Assigning `document.cookie`. */
    method SetCookie(text: string)
      modifies this`cookies
      ensures cookies == AssignCookie(old(cookies), text)
    {
      cookies := AssignCookie(cookies, text);
    }

    /** Replacing the history entry with a bare path: the location keeps
        no query. */
    method ReplaceWithPath(path: string)
      modifies this`pathname, this`search
      ensures pathname == path && search == []
    {
      pathname := path;
      search := [];
    }
  }

  /** The framework's client router; `push` is recorded, not carried out. */
  class Router {
    var pushed: seq<string>

    constructor ()
      ensures pushed == []
    {
      pushed := [];
    }

    method Push(href: string)
      modifies this
      ensures pushed == old(pushed) + [href]
    {
      pushed := pushed + [href];
    }
  }

  // ---------------------------------------------------------------------
  // Camera streams
  // ---------------------------------------------------------------------

  class Track {
    var live: bool

    constructor ()
      ensures live
    {
      live := true;
    }
  }

  class MediaStream {
    const tracks: seq<Track>

    constructor (tracks: seq<Track>)
      ensures this.tracks == tracks
    {
      this.tracks := tracks;
    }

    function Footprint(): set<Track> {
      set t | t in tracks
    }
  }

  /** Stopping a stream: each of its tracks is stopped in turn. */
  method StopTracks(s: MediaStream)
    modifies s.Footprint()
    ensures forall t :: t in s.tracks ==> !t.live
  {
    var i := 0;
    while i < |s.tracks|
      invariant 0 <= i <= |s.tracks|
      invariant forall j :: 0 <= j < i ==> !s.tracks[j].live
    {
      s.tracks[i].live := false;
      i := i + 1;
    }
  }

  // ---------------------------------------------------------------------
  // HTTP
  // ---------------------------------------------------------------------

  datatype HttpMethod = GET | PUT

  /** A binary payload, by its content. */
  datatype Blob = Blob(bytes: seq<int>)

  /** A file built from one blob, with a name and a MIME type. */
  datatype File = File(name: string, mimeType: string, blob: Blob)

  /** A request as sent; a PUT carries the file in its body. */
  datatype Request = Request(verb: HttpMethod, url: string, body: Option<File>)

  /** How an awaited `fetch` ends: with a response of some status (whatever
      the status, `fetch` resolves) or by rejecting on a network error. */
  datatype FetchOutcome = Responded(status: int) | NetworkError

  /** The requests the page has sent, in order. */
  class Network {
    var sent: seq<Request>

    constructor ()
      ensures sent == []
    {
      sent := [];
    }

    method Send(r: Request)
      modifies this
      ensures sent == old(sent) + [r]
    {
      sent := sent + [r];
    }
  }
}
