/** The client-side session helpers of lib/auth.ts: the cookie check, the
    cookie writes for sign-in and sign-out, and reading the authorization code
    from the URL. A missing browser window (server rendering) is a null
    `Window?`. */
module Auth {
  import opened Text
  import opened Browser
  import opened Uri

  const AuthTokenCookie: string := "auth_token"

  /** The prefix the cookie check looks for: the cookie's name and '='. */
  const AuthPrefix: string := AuthTokenCookie + "="

  /** Splitting the cookie string at "; ", as JavaScript's string split
      does: the separators are found left to right; two of them
      can never overlap, so every occurrence of "; " separates two rows. */
  function SplitRows(s: string): (r: seq<string>)
    ensures |r| >= 1
    decreases |s|
  {
    if |s| >= 2 && s[0] == ';' && s[1] == ' ' then [""] + SplitRows(s[2..])
    else if s == [] then [""]
    else
      var rest := SplitRows(s[1..]);
      [[s[0]] + rest[0]] + rest[1..]
  }

  /** The first row that begins with the prefix, if any. */
  function FindRow(rows: seq<string>, prefix: string): (r: Option<string>)
    ensures r.Some? <==> exists k :: 0 <= k < |rows| && StartsWith(rows[k], prefix)
    ensures r.Some? ==> r.value in rows && StartsWith(r.value, prefix)
  {
    if rows == [] then None
    else if StartsWith(rows[0], prefix) then Some(rows[0])
    else
      var r := FindRow(rows[1..], prefix);
      assert forall k :: 1 <= k < |rows| ==> rows[k] == rows[1..][k - 1];
      r
  }

  /** JavaScript truthiness of a string that may be undefined: present and
      not empty. */
  predicate Truthy(x: Option<string>) {
    x.Some? && x.value != []
  }

  /** The body of `isAuthenticated` once a window exists. */
  predicate HasAuthRow(cookie: string) {
    Truthy(FindRow(SplitRows(cookie), AuthPrefix))
  }

  /** `isAuthenticated()`: false without a window (server rendering); in a
      browser, whether the jar holds a cookie named `auth_token`. */
  predicate IsAuthenticated(w: Window?)
    reads w
    ensures w == null ==> !IsAuthenticated(w)
    ensures w != null && ValidJar(w.cookies) ==>
      (IsAuthenticated(w) <==> HasCookie(w.cookies, AuthTokenCookie))
  {
    if w == null then false
    else if ValidJar(w.cookies) then JarCheck(w.cookies); HasAuthRow(w.CookieString())
    else HasAuthRow(w.CookieString())
  }

  /** The text `setAuthCookie` assigns: the cookie name, '=', the token as
      given (not encoded), then the attributes. What the browser stores
      from it is `SetCookieParsed`. */
  function SetCookieText(token: string): (r: string)
    ensures StartsWith(r, AuthPrefix + token)
    ensures r[|AuthPrefix| + |token|..] == ";" + SetAttributes
  {
    var r := AuthPrefix + token + ";" + SetAttributes;
    assert r == (AuthPrefix + token) + (";" + SetAttributes);
    r
  }

  /** The attributes `setAuthCookie` gives the cookie. */
  const SetAttributes: string := " path=/; max-age=86400; SameSite=Lax"

  /** The text `clearAuthCookie` assigns: the cookie name and '=' with no
      value, then the attributes. What the browser does with it is
      `ClearCookieParsed`. */
  function ClearCookieText(): (r: string)
    ensures StartsWith(r, AuthPrefix)
    ensures r[|AuthPrefix|..] == "; path=/; max-age=0"
  {
    AuthPrefix + "; path=/; max-age=0"
  }

  /** `getTokenFromUrl()`. */
  function TokenFromUrl(w: Window?): (r: Option<string>)
    reads w
    ensures w == null ==> r.None?
    ensures w != null ==> r == GetParam(w.search, "code")
  {
    if w != null then GetParam(w.search, "code") else None
  }

  /** `setAuthCookie(token)`. */
  method SetAuthCookie(w: Window, token: string)
    requires ValidJar(w.cookies)
    modifies w`cookies
    ensures w.cookies == AssignCookie(old(w.cookies), SetCookieText(token))
    ensures ValidJar(w.cookies) && IsAuthenticated(w)
  {
    w.SetCookie(SetCookieText(token));
    SetAuthenticates(old(w.cookies), token);
    AssignKeepsValid(old(w.cookies), SetCookieText(token));
  }

  /** `clearAuthCookie()`. */
  method ClearAuthCookie(w: Window)
    requires ValidJar(w.cookies)
    modifies w`cookies
    ensures w.cookies == AssignCookie(old(w.cookies), ClearCookieText())
    ensures ValidJar(w.cookies) && !IsAuthenticated(w)
  {
    w.SetCookie(ClearCookieText());
    ClearDeauthenticates(old(w.cookies));
    AssignKeepsValid(old(w.cookies), ClearCookieText());
  }

  // ---------------------------------------------------------------------
  // The cookie check
  // ---------------------------------------------------------------------

  /** `needle` occurs in `s` starting at index `i`. */
  predicate OccursAt(s: string, needle: string, i: int) {
    0 <= i && i + |needle| <= |s| && s[i..i + |needle|] == needle
  }

  predicate Occurs(s: string, needle: string) {
    exists i :: 0 <= i <= |s| && OccursAt(s, needle, i)
  }

  /** The first row is the text before the first "; ". */
  lemma {:induction false} FirstRow(s: string)
    ensures |SplitRows(s)[0]| <= |s| && SplitRows(s)[0] == s[..|SplitRows(s)[0]|]
    ensures |SplitRows(s)[0]| < |s| ==> s[|SplitRows(s)[0]|] == ';'
  {
    if |s| >= 2 && s[0] == ';' && s[1] == ' ' {
    } else if s != [] {
      FirstRow(s[1..]);
    }
  }

  /** For a prefix without ';', the first row starts with it iff the string does. */
  lemma {:induction false} FirstRowStartsWith(s: string, p: string)
    requires ';' !in p
    ensures StartsWith(SplitRows(s)[0], p) <==> StartsWith(s, p)
  {
    FirstRow(s);
    var r0 := SplitRows(s)[0];
    if StartsWith(s, p) {
      assert forall i :: 0 <= i < |p| ==> s[i] == p[i];
    }
  }

  lemma {:induction false} SliceOfSuffix(s: string, d: nat, a: nat, b: nat)
    requires d <= |s| && a <= b <= |s| - d
    ensures s[d..][a..b] == s[a + d..b + d]
  {
    assert forall m :: 0 <= m < b - a ==> s[d..][a..b][m] == s[a + d..b + d][m];
  }

  /** An occurrence at or after `d` is an occurrence in `s[d..]`. */
  lemma {:induction false} OccursInSuffix(s: string, q: string, d: nat, i: nat)
    requires d <= i && OccursAt(s, q, i)
    ensures Occurs(s[d..], q)
  {
    SliceOfSuffix(s, d, i - d, i - d + |q|);
    assert OccursAt(s[d..], q, i - d);
  }

  /** Some row after the first starts with `p`. */
  predicate LaterRowStarts(rows: seq<string>, p: string) {
    exists k :: 1 <= k < |rows| && StartsWith(rows[k], p)
  }

  /** A later row starts with the prefix iff "; " followed by it occurs. */
  lemma {:induction false} LaterRowStartsWith(s: string, p: string)
    requires ';' !in p
    ensures LaterRowStarts(SplitRows(s), p) <==> Occurs(s, "; " + p)
    decreases |s|
  {
    if |s| >= 2 && s[0] == ';' && s[1] == ' ' {
      LaterRowStartsWith(s[2..], p);
      FirstRowStartsWith(s[2..], p);
      LaterRowsAfterSeparator(s, p);
    } else if s != [] {
      LaterRowStartsWith(s[1..], p);
      LaterRowsAfterChar(s, p);
    }
  }

  lemma {:induction false} LaterRowsAfterSeparator(s: string, p: string)
    requires |s| >= 2 && s[0] == ';' && s[1] == ' '
    requires LaterRowStarts(SplitRows(s[2..]), p) <==> Occurs(s[2..], "; " + p)
    requires StartsWith(SplitRows(s[2..])[0], p) <==> StartsWith(s[2..], p)
    ensures LaterRowStarts(SplitRows(s), p) <==> Occurs(s, "; " + p)
  {
    if LaterRowStarts(SplitRows(s), p) {
      LaterRowAfterSeparatorOccurs(s, p);
    }
    if Occurs(s, "; " + p) {
      OccursAfterSeparatorLaterRow(s, p);
    }
  }

  lemma {:induction false} LaterRowAfterSeparatorOccurs(s: string, p: string)
    requires |s| >= 2 && s[0] == ';' && s[1] == ' '
    requires LaterRowStarts(SplitRows(s[2..]), p) ==> Occurs(s[2..], "; " + p)
    requires StartsWith(SplitRows(s[2..])[0], p) ==> StartsWith(s[2..], p)
    requires LaterRowStarts(SplitRows(s), p)
    ensures Occurs(s, "; " + p)
  {
    var rows := SplitRows(s);
    var q := "; " + p;
    var t := s[2..];
    var rt := SplitRows(t);
    assert rows == [""] + rt;
    var k :| 1 <= k < |rows| && StartsWith(rows[k], p);
    assert rows[k] == rt[k - 1];
    if k == 1 {
      assert s[..|q|] == "; " + t[..|p|];
      assert OccursAt(s, q, 0);
    } else {
      assert LaterRowStarts(rt, p);
      var j :| 0 <= j <= |t| && OccursAt(t, q, j);
      SliceOfSuffix(s, 2, j, j + |q|);
      assert OccursAt(s, q, j + 2);
    }
  }

  lemma {:induction false} OccursAfterSeparatorLaterRow(s: string, p: string)
    requires |s| >= 2 && s[0] == ';' && s[1] == ' '
    requires Occurs(s[2..], "; " + p) ==> LaterRowStarts(SplitRows(s[2..]), p)
    requires StartsWith(s[2..], p) ==> StartsWith(SplitRows(s[2..])[0], p)
    requires Occurs(s, "; " + p)
    ensures LaterRowStarts(SplitRows(s), p)
  {
    var rows := SplitRows(s);
    var q := "; " + p;
    var t := s[2..];
    var rt := SplitRows(t);
    assert rows == [""] + rt;
    var i :| 0 <= i <= |s| && OccursAt(s, q, i);
    assert s[i..i + |q|][0] == s[i] && q[0] == ';';
    if i == 0 {
      assert t[..|p|] == s[2..|q|];
      assert StartsWith(rt[0], p);
      assert rows[1] == rt[0];
    } else {
      assert i >= 2;
      OccursInSuffix(s, q, 2, i);
      var k :| 1 <= k < |rt| && StartsWith(rt[k], p);
      assert rows[k + 1] == rt[k];
    }
  }

  lemma {:induction false} LaterRowsAfterChar(s: string, p: string)
    requires s != [] && !(|s| >= 2 && s[0] == ';' && s[1] == ' ')
    requires LaterRowStarts(SplitRows(s[1..]), p) <==> Occurs(s[1..], "; " + p)
    ensures LaterRowStarts(SplitRows(s), p) <==> Occurs(s, "; " + p)
  {
    if LaterRowStarts(SplitRows(s), p) {
      LaterRowAfterCharOccurs(s, p);
    }
    if Occurs(s, "; " + p) {
      OccursAfterCharLaterRow(s, p);
    }
  }

  lemma {:induction false} LaterRowAfterCharOccurs(s: string, p: string)
    requires s != [] && !(|s| >= 2 && s[0] == ';' && s[1] == ' ')
    requires LaterRowStarts(SplitRows(s[1..]), p) ==> Occurs(s[1..], "; " + p)
    requires LaterRowStarts(SplitRows(s), p)
    ensures Occurs(s, "; " + p)
  {
    var rows := SplitRows(s);
    var q := "; " + p;
    var t := s[1..];
    var rt := SplitRows(t);
    assert rows == [[s[0]] + rt[0]] + rt[1..];
    var k :| 1 <= k < |rows| && StartsWith(rows[k], p);
    assert rows[k] == rt[k];
    assert LaterRowStarts(rt, p);
    var j :| 0 <= j <= |t| && OccursAt(t, q, j);
    SliceOfSuffix(s, 1, j, j + |q|);
    assert OccursAt(s, q, j + 1);
  }

  lemma {:induction false} OccursAfterCharLaterRow(s: string, p: string)
    requires s != [] && !(|s| >= 2 && s[0] == ';' && s[1] == ' ')
    requires Occurs(s[1..], "; " + p) ==> LaterRowStarts(SplitRows(s[1..]), p)
    requires Occurs(s, "; " + p)
    ensures LaterRowStarts(SplitRows(s), p)
  {
    var rows := SplitRows(s);
    var q := "; " + p;
    var t := s[1..];
    var rt := SplitRows(t);
    assert rows == [[s[0]] + rt[0]] + rt[1..];
    var i :| 0 <= i <= |s| && OccursAt(s, q, i);
    assert s[i..i + |q|][0] == s[i] && s[i..i + |q|][1] == s[i + 1];
    assert i != 0;
    OccursInSuffix(s, q, 1, i);
    var k :| 1 <= k < |rt| && StartsWith(rt[k], p);
    assert rows[k] == rt[k];
  }

  /** The cookie check without rows: the cookie string starts with
      `auth_token=`, or "; auth_token=" occurs in it. So `auth_tokenX=1` and
      `a=auth_token=1` do not count, and `auth_token=` with an empty value does. */
  lemma {:induction false} AuthRowIffOccurs(cookie: string)
    ensures HasAuthRow(cookie) <==> StartsWith(cookie, AuthPrefix) || Occurs(cookie, "; " + AuthPrefix)
  {
    var rows := SplitRows(cookie);
    FirstRowStartsWith(cookie, AuthPrefix);
    LaterRowStartsWith(cookie, AuthPrefix);
    var f := FindRow(rows, AuthPrefix);
    if f.Some? {
      assert |f.value| >= |AuthPrefix|;
      var k :| 0 <= k < |rows| && StartsWith(rows[k], AuthPrefix);
      assert k == 0 || LaterRowStarts(rows, AuthPrefix);
    }
    if LaterRowStarts(rows, AuthPrefix) {
      var k :| 1 <= k < |rows| && StartsWith(rows[k], AuthPrefix);
    }
  }

  /** A row that only resembles the name, or holds it after its start, does
      not count; an empty value does. */
  lemma {:induction false} NoRowResemblingTheName()
    ensures !HasAuthRow("")
    ensures !HasAuthRow("auth_tokenX=1")
  {
    SingleRowCheck("");
    LookalikeText();
    SingleRowCheck("auth_tokenX=1");
  }

  /** A cookie string without ';' is one row, checked on its own. */
  lemma {:induction false} SingleRowCheck(s: string)
    requires ';' !in s
    ensures HasAuthRow(s) <==> StartsWith(s, AuthPrefix)
  {
    SplitWithoutSeparator(s);
  }

  lemma {:induction false} LookalikeText()
    ensures ';' !in "auth_tokenX=1" && !StartsWith("auth_tokenX=1", AuthPrefix)
  {
    assert "auth_tokenX=1"[10] != AuthPrefix[10];
  }

  lemma {:induction false} NoRowWithTheNameInside()
    ensures !HasAuthRow("a=auth_token=1")
  {
    InsideText();
    SingleRowCheck("a=auth_token=1");
  }

  lemma {:induction false} InsideText()
    ensures ';' !in "a=auth_token=1" && !StartsWith("a=auth_token=1", AuthPrefix)
  {
    assert "a=auth_token=1"[1] != AuthPrefix[1];
  }

  lemma {:induction false} EmptyValueCounts()
    ensures HasAuthRow("theme=dark; auth_token=")
  {
    EmptyValueText();
    AuthRowAfter("theme=dark", "");
  }

  lemma {:induction false} EmptyValueText()
    ensures "theme=dark" + "; " + AuthPrefix + "" == "theme=dark; auth_token=" && ';' !in "theme=dark"
  {
  }

  /** A cookie "auth_token" rendered after another one counts, whatever its value. */
  lemma {:induction false} AuthRowAfter(x: string, v: string)
    requires ';' !in x && ';' !in v
    ensures HasAuthRow(x + "; " + AuthPrefix + v)
  {
    var row := AuthPrefix + v;
    assert x + "; " + AuthPrefix + v == x + "; " + row;
    SplitAfterRow(x, row);
    assert ';' !in AuthPrefix;
    SplitWithoutSeparator(row);
    var rows := SplitRows(x + "; " + row);
    assert rows == [x, row];
    assert StartsWith(rows[1], AuthPrefix);
  }

  // ---------------------------------------------------------------------
  // Splitting what the jar renders gives back its rows
  // ---------------------------------------------------------------------

  lemma {:induction false} SplitWithoutSeparator(x: string)
    requires ';' !in x
    ensures SplitRows(x) == [x]
  {
    if x != [] {
      SplitWithoutSeparator(x[1..]);
      assert [x[0]] + x[1..] == x;
    }
  }

  lemma {:induction false} SplitAfterRow(x: string, y: string)
    requires ';' !in x
    ensures SplitRows(x + "; " + y) == [x] + SplitRows(y)
  {
    if x == [] {
      assert x + "; " + y == "; " + y;
      assert ("; " + y)[2..] == y;
    } else {
      var s := x + "; " + y;
      assert s[1..] == x[1..] + "; " + y;
      SplitAfterRow(x[1..], y);
      assert [x[0]] + x[1..] == x;
    }
  }

  /** Splitting a join of rows without ';' gives the rows back. */
  lemma {:induction false} SplitJoin(rows: seq<string>)
    requires |rows| >= 1
    requires forall k :: 0 <= k < |rows| ==> ';' !in rows[k]
    ensures SplitRows(Join(rows, "; ")) == rows
  {
    if |rows| == 1 {
      SplitWithoutSeparator(rows[0]);
    } else {
      SplitJoin(rows[1..]);
      SplitAfterRow(rows[0], Join(rows[1..], "; "));
      assert [rows[0]] + rows[1..] == rows;
    }
  }

  /** Joining the rows again gives the cookie string back. */
  lemma {:induction false} JoinSplit(s: string)
    ensures Join(SplitRows(s), "; ") == s
    decreases |s|
  {
    if |s| >= 2 && s[0] == ';' && s[1] == ' ' {
      JoinSplit(s[2..]);
      JoinSplitSeparator(s);
    } else if s != [] {
      JoinSplit(s[1..]);
      JoinSplitChar(s);
    }
  }

  lemma {:induction false} JoinHead(rows: seq<string>, sep: string)
    requires |rows| >= 2
    ensures Join(rows, sep) == rows[0] + sep + Join(rows[1..], sep)
  {
  }

  lemma {:induction false} JoinSplitSeparator(s: string)
    requires |s| >= 2 && s[0] == ';' && s[1] == ' '
    requires Join(SplitRows(s[2..]), "; ") == s[2..]
    ensures Join(SplitRows(s), "; ") == s
  {
    var rt := SplitRows(s[2..]);
    var rows := SplitRows(s);
    assert rows == [""] + rt;
    JoinHead(rows, "; ");
    assert rows[1..] == rt;
    assert s == "; " + s[2..];
  }

  lemma {:induction false} JoinSplitChar(s: string)
    requires s != [] && !(|s| >= 2 && s[0] == ';' && s[1] == ' ')
    requires Join(SplitRows(s[1..]), "; ") == s[1..]
    ensures Join(SplitRows(s), "; ") == s
  {
    var rt := SplitRows(s[1..]);
    assert SplitRows(s) == [[s[0]] + rt[0]] + rt[1..];
    JoinWidenHead(s[0], rt, "; ");
    assert s == [s[0]] + s[1..];
  }

  /** Prefixing the first part with a character prefixes the join. */
  lemma {:induction false} JoinWidenHead(x: char, rows: seq<string>, sep: string)
    requires |rows| >= 1
    ensures Join([[x] + rows[0]] + rows[1..], sep) == [x] + Join(rows, sep)
  {
    var wide := [[x] + rows[0]] + rows[1..];
    assert wide[0] == [x] + rows[0] && wide[1..] == rows[1..];
    if |rows| > 1 {
      JoinHead(wide, sep);
      JoinHead(rows, sep);
    }
  }

  /** A row `name=value` starts with `auth_token=` exactly when the name is
      `auth_token`, since a name has no '='. */
  lemma {:induction false} RowStartsWithIff(c: Cookie)
    requires '=' !in c.name
    ensures StartsWith(c.name + "=" + c.value, AuthPrefix) <==> c.name == AuthTokenCookie
  {
    var row := c.name + "=" + c.value;
    var n := |c.name|;
    assert row[n] == '=';
    assert forall i :: 0 <= i < n ==> row[i] == c.name[i];
    assert forall i :: 0 <= i < 10 ==> AuthPrefix[i] != '=';
    assert AuthPrefix == "auth_token=" && AuthPrefix[10] == '=';
    if StartsWith(row, AuthPrefix) {
      assert forall i :: 0 <= i < 11 ==> row[i] == AuthPrefix[i];
      assert !(n < 10);
      assert forall i :: 0 <= i < n ==> c.name[i] != '=';
      assert !(n > 10);
      assert c.name == row[..10];
    }
    if c.name == AuthTokenCookie {
      assert row[..11] == AuthPrefix;
    }
  }

  /** On a jar, the cookie check holds exactly when a cookie named
      `auth_token` is present. */
  lemma {:induction false} JarCheck(jar: seq<Cookie>)
    requires ValidJar(jar)
    ensures HasAuthRow(RenderCookies(jar)) <==> HasCookie(jar, AuthTokenCookie)
  {
    var rows := CookieRows(jar);
    if jar == [] {
      AuthRowIffOccurs("");
    } else {
      forall k | 0 <= k < |rows| ensures ';' !in rows[k] {
        assert rows[k] == jar[k].name + "=" + jar[k].value;
      }
      SplitJoin(rows);
      forall k | 0 <= k < |jar| ensures StartsWith(rows[k], AuthPrefix) <==> jar[k].name == AuthTokenCookie {
        RowStartsWithIff(jar[k]);
      }
      var f := FindRow(rows, AuthPrefix);
      if f.Some? {
        assert |f.value| >= |AuthPrefix|;
      }
    }
  }

  // ---------------------------------------------------------------------
  // What the two cookie writes do to the jar
  // ---------------------------------------------------------------------

  /** Attributes after the last valid Max-Age do not matter. */
  lemma {:induction false} LastSomeConcat(x: seq<Option<int>>, y: seq<Option<int>>)
    requires LastSome(y).Some?
    ensures LastSome(x + y) == LastSome(y)
    decreases |y|
  {
    var xy := x + y;
    assert xy[|xy| - 1] == y[|y| - 1];
    if y[|y| - 1].None? {
      assert xy[..|xy| - 1] == x + y[..|y| - 1];
      LastSomeConcat(x, y[..|y| - 1]);
    }
  }

  lemma {:induction false} MaxAgeLast(a: seq<string>, b: seq<string>)
    requires MaxAge(b).Some?
    ensures MaxAge(a + b) == MaxAge(b)
  {
    AttributeValuesConcat(a, b);
    LastSomeConcat(AttributeValues(a), AttributeValues(b));
  }

  lemma {:induction false} AttributeValuesConcat(a: seq<string>, b: seq<string>)
    ensures AttributeValues(a + b) == AttributeValues(a) + AttributeValues(b)
  {
    MapConcat(AttributeMaxAge, a, b);
  }

  /** An attribute whose trimmed name has another length than "max-age". */
  lemma {:induction false} OtherAttribute(name: string, v: string)
    requires '=' !in name && |TrimWsp(name)| != 7
    ensures AttributeMaxAge(name + "=" + v) == None
  {
    SplitFirst(name, v, '=');
  }

  lemma {:induction false} MaxAgeName()
    ensures TrimWsp(" max-age") == "max-age"
  {
    DropLeadingWsp(" max-age");
    assert " max-age"[1..] == "max-age";
    NoWspAtEnds("max-age");
  }

  /** An attribute `name=v`, its name free of '=': the value counts exactly
      when the trimmed name is "max-age" in some letter case. */
  lemma {:induction false} NamedAttribute(name: string, v: string)
    requires '=' !in name
    ensures AttributeMaxAge(name + "=" + v)
         == if MatchesIgnoringCase(TrimWsp(name), "max-age") then ParseDelta(TrimWsp(v)) else None
  {
    SplitFirst(name, v, '=');
  }

  lemma {:induction false} MaxAgeMatches()
    ensures MatchesIgnoringCase(TrimWsp(" max-age"), "max-age")
  {
    MaxAgeName();
    var w := "max-age";
    forall i | 0 <= i < |w| ensures LowerAscii(w[i]) == w[i] {
      assert !('A' <= w[i] <= 'Z');
    }
  }

  lemma {:induction false} MaxAgeAttribute(v: string)
    ensures AttributeMaxAge(" max-age=" + v) == ParseDelta(TrimWsp(v))
  {
    MaxAgeNameText(v);
    NamedAttribute(" max-age", v);
    MaxAgeMatches();
  }

  lemma {:induction false} MaxAgeNameText(v: string)
    ensures '=' !in " max-age"
    ensures " max-age" + "=" + v == " max-age=" + v
  {
    var name := " max-age";
    assert name + "=" == " max-age=";
    assert name + "=" + v == (name + "=") + v;
  }

  lemma {:induction false} Trimmed86400()
    ensures TrimWsp("86400") == "86400"
  {
    NoWspAtEnds("86400");
  }

  lemma {:induction false} Digits86400()
    ensures ParseDelta("86400") == Some(86400)
  {
    var s := "86400";
    assert AllDigits(s);
    assert s[..4] == "8640" && "8640"[..3] == "864" && "864"[..2] == "86" && "86"[..1] == "8" && "8"[..0] == "";
    assert DigitsValue("8") == 8;
    assert DigitsValue("86") == 86;
    assert DigitsValue("864") == 864;
    assert DigitsValue("8640") == 8640;
  }

  lemma {:induction false} Trimmed0()
    ensures TrimWsp("0") == "0"
  {
    NoWspAtEnds("0");
  }

  lemma {:induction false} Digits0()
    ensures ParseDelta("0") == Some(0)
  {
    assert "0"[..0] == "";
  }

  lemma {:induction false} SameSiteName()
    ensures |TrimWsp(" SameSite")| == 8
  {
    DropLeadingWsp(" SameSite");
    assert " SameSite"[1..] == "SameSite";
    NoWspAtEnds("SameSite");
  }

  lemma {:induction false} SetAttributesSplit()
    ensures SplitAt(SetAttributes, ';') == [" path=/", " max-age=86400", " SameSite=Lax"]
  {
    SetAttributesText();
    SplitThree(" path=/", " max-age=86400", " SameSite=Lax", ';');
  }

  lemma {:induction false} SetAttributesText()
    ensures SetAttributes == " path=/" + [';'] + " max-age=86400" + [';'] + " SameSite=Lax"
    ensures ';' !in " path=/" && ';' !in " max-age=86400" && ';' !in " SameSite=Lax"
  {
  }

  lemma {:induction false} LastMaxAgeOfTwo(a: string, b: string, n: int)
    requires AttributeMaxAge(b) == Some(n)
    ensures MaxAge([a, b]) == Some(n)
  {
    assert AttributeValues([a, b])[1] == Some(n);
  }

  lemma {:induction false} LastMaxAgeOfThree(a: string, b: string, d: string, n: int)
    requires AttributeMaxAge(b) == Some(n) && AttributeMaxAge(d) == None
    ensures MaxAge([a, b, d]) == Some(n)
  {
    var xs := AttributeValues([a, b, d]);
    assert |xs| == 3 && xs[1] == Some(n) && xs[2] == None;
    LastSomeBeforeNone(xs);
  }

  /** Of three values ending in `None`, a present middle one is the last. */
  lemma {:induction false} LastSomeBeforeNone(xs: seq<Option<int>>)
    requires |xs| == 3 && xs[1].Some? && xs[2] == None
    ensures LastSome(xs) == xs[1]
  {
    var front := xs[..2];
    assert front[1] == xs[1];
    assert LastSome(xs) == LastSome(front);
  }

  lemma {:induction false} SameSiteIsNotMaxAge()
    ensures AttributeMaxAge(" SameSite=Lax") == None
  {
    SameSiteName();
    SameSiteText();
    OtherAttribute(" SameSite", "Lax");
  }

  lemma {:induction false} SameSiteText()
    ensures " SameSite" + "=" + "Lax" == " SameSite=Lax" && '=' !in " SameSite"
  {
  }

  lemma {:induction false} MaxAgeOf(v: string, n: int)
    requires TrimWsp(v) == v && ParseDelta(v) == Some(n)
    ensures AttributeMaxAge(" max-age=" + v) == Some(n)
  {
    MaxAgeAttribute(v);
  }

  lemma {:induction false} MaxAge86400()
    ensures AttributeMaxAge(" max-age=86400") == Some(86400)
  {
    Trimmed86400();
    Digits86400();
    MaxAgeOf("86400", 86400);
    MaxAge86400Text();
  }

  lemma {:induction false} MaxAge86400Text()
    ensures " max-age=" + "86400" == " max-age=86400"
  {
  }

  lemma {:induction false} MaxAge0()
    ensures AttributeMaxAge(" max-age=0") == Some(0)
  {
    Trimmed0();
    Digits0();
    MaxAgeOf("0", 0);
    MaxAge0Text();
  }

  lemma {:induction false} MaxAge0Text()
    ensures " max-age=" + "0" == " max-age=0"
  {
  }

  lemma {:induction false} SetAttributesMaxAge()
    ensures MaxAge(SplitAt(SetAttributes, ';')) == Some(86400)
  {
    SetAttributesSplit();
    SameSiteIsNotMaxAge();
    MaxAge86400();
    LastMaxAgeOfThree(" path=/", " max-age=86400", " SameSite=Lax", 86400);
  }

  lemma {:induction false} ClearAttributesSplit()
    ensures SplitAt(" path=/; max-age=0", ';') == [" path=/", " max-age=0"]
  {
    ClearAttributesText();
    SplitTwo(" path=/", " max-age=0", ';');
  }

  lemma {:induction false} ClearAttributesText()
    ensures " path=/; max-age=0" == " path=/" + [';'] + " max-age=0"
    ensures ';' !in " path=/" && ';' !in " max-age=0"
  {
  }

  lemma {:induction false} ClearAttributesMaxAge()
    ensures MaxAge(SplitAt(" path=/; max-age=0", ';')) == Some(0)
  {
    ClearAttributesSplit();
    MaxAge0();
    LastMaxAgeOfTwo(" path=/", " max-age=0", 0);
  }

  /** An assignment `name=rest` whose name is already clean: the value is
      the rest up to the first ';', the attributes follow it. */
  lemma {:induction false} ParseNamed(name: string, rest: string)
    requires name != [] && ';' !in name && '=' !in name && TrimWsp(name) == name
    ensures ParseCookieWrite(name + "=" + rest)
         == Some(CookieWrite(Cookie(name, TrimWsp(UpTo(rest, ';'))), MaxAge(SplitAt(After(rest, ';'), ';'))))
  {
    var text := name + "=" + rest;
    var head := name + "=";
    assert text == head + rest;
    assert ';' !in head;
    UpToConcat(head, rest, ';');
    AfterConcat(head, rest, ';');
    var pair := UpTo(text, ';');
    assert pair == name + ['='] + UpTo(rest, ';');
    SplitFirst(name, UpTo(rest, ';'), '=');
  }

  /** The value ends where the attributes begin, or earlier. */
  lemma {:induction false} TokenValue(token: string, attrs: string)
    ensures UpTo(token + ";" + attrs, ';') == UpTo(token, ';')
  {
    assert token + ";" + attrs == token + (";" + attrs);
    UpToConcat(token, ";" + attrs, ';');
    assert UpTo(";" + attrs, ';') == [];
    if ';' !in token {
      assert token[..|token|] == token;
    }
  }

  /** The attributes seen are those of the token after its first ';'
      (if any) followed by `attrs`. */
  lemma {:induction false} TokenAttributes(token: string, attrs: string)
    ensures After(token + ";" + attrs, ';') == if ';' in token then After(token, ';') + ";" + attrs else attrs
  {
    assert token + ";" + attrs == token + (";" + attrs);
    AfterConcat(token, ";" + attrs, ';');
    assert After(";" + attrs, ';') == attrs;
  }

  /** Whatever the token smuggles in, the trailing Max-Age=86400 wins. */
  lemma {:induction false} TokenMaxAge(token: string)
    ensures MaxAge(SplitAt(After(token + ";" + SetAttributes, ';'), ';')) == Some(86400)
  {
    TokenAttributes(token, SetAttributes);
    SetAttributesMaxAge();
    if ';' in token {
      SplitAtConcat(After(token, ';'), SetAttributes, ';');
      MaxAgeLast(SplitAt(After(token, ';'), ';'), SplitAt(SetAttributes, ';'));
    }
  }

  /** `setAuthCookie(token)` stores a cookie `auth_token` whose value is the
      token up to its first ';', without surrounding blanks (the token is not
      encoded, so a ';' in it ends the value), kept for 86400 seconds. */
  lemma {:induction false} SetCookieParsed(token: string)
    ensures ParseCookieWrite(SetCookieText(token))
         == Some(CookieWrite(Cookie(AuthTokenCookie, TrimWsp(UpTo(token, ';'))), Some(86400)))
  {
    var rest := token + ";" + SetAttributes;
    assert SetCookieText(token) == AuthTokenCookie + "=" + rest;
    NoWspAtEnds(AuthTokenCookie);
    ParseNamed(AuthTokenCookie, rest);
    TokenValue(token, SetAttributes);
    TokenMaxAge(token);
  }

  lemma {:induction false} EmptyValueThenTail()
    ensures UpTo("; path=/; max-age=0", ';') == []
    ensures After("; path=/; max-age=0", ';') == " path=/; max-age=0"
  {
    SplitFirst([], " path=/; max-age=0", ';');
    ClearTailText();
  }

  lemma {:induction false} ClearTailText()
    ensures [] + [';'] + " path=/; max-age=0" == "; path=/; max-age=0"
  {
  }

  /** `clearAuthCookie()` is a cookie `auth_token` with an empty value and
      Max-Age 0, which removes it. */
  lemma {:induction false} ClearCookieParsed()
    ensures ParseCookieWrite(ClearCookieText()) == Some(CookieWrite(Cookie(AuthTokenCookie, ""), Some(0)))
  {
    var rest := "; path=/; max-age=0";
    assert ClearCookieText() == AuthTokenCookie + "=" + rest;
    NoWspAtEnds(AuthTokenCookie);
    ParseNamed(AuthTokenCookie, rest);
    EmptyValueThenTail();
    NoWspAtEnds([]);
    ClearAttributesMaxAge();
  }

  /** After `setAuthCookie(token)` the cookie check holds, whatever the
      token, and every other cookie is still there. */
  lemma {:induction false} SetAuthenticates(jar: seq<Cookie>, token: string)
    requires ValidJar(jar)
    ensures HasAuthRow(RenderCookies(AssignCookie(jar, SetCookieText(token))))
    ensures forall c :: c in jar && c.name != AuthTokenCookie ==> c in AssignCookie(jar, SetCookieText(token))
  {
    SetCookieParsed(token);
    var r := AssignCookie(jar, SetCookieText(token));
    var c := Cookie(AuthTokenCookie, TrimWsp(UpTo(token, ';')));
    assert r == UpsertCookie(jar, c);
    AssignKeepsValid(jar, SetCookieText(token));
    JarCheck(r);
    var i :| 0 <= i < |r| && r[i] == c;
  }

  /** After `clearAuthCookie()` the cookie check fails, and every other
      cookie is still there. */
  lemma {:induction false} ClearDeauthenticates(jar: seq<Cookie>)
    requires ValidJar(jar)
    ensures !HasAuthRow(RenderCookies(AssignCookie(jar, ClearCookieText())))
    ensures forall c :: c in jar && c.name != AuthTokenCookie ==> c in AssignCookie(jar, ClearCookieText())
  {
    ClearCookieParsed();
    var r := AssignCookie(jar, ClearCookieText());
    assert r == RemoveCookie(jar, AuthTokenCookie);
    AssignKeepsValid(jar, ClearCookieText());
    JarCheck(r);
    forall i | 0 <= i < |r| ensures r[i].name != AuthTokenCookie {
      assert r[i] in r;
    }
  }
}
