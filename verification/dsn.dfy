/** The PostgreSQL connection string. */
module Dsn {
  // The grammar is the keyword/value one of libpq (PostgreSQL 16, section 34.1.1.1).

  import opened Common

  datatype Config = Config(instanceName: string, host: string, port: string, user: string, password: string, name: string, sslMode: string)

  const DEFAULT_SSL_MODE := "disable"

  const VERTICAL_TAB: char := 11 as char
  const FORM_FEED: char := 12 as char

  // ----- The printer

  /** `strings.ContainsAny(v, " \t\n\r='\\")` */
  predicate NeedsQuotes(v: string) {
    v == "" || exists c :: c in v && c in {' ', '\t', '\n', '\r', '=', '\'', '\\'}
  }

  function Replaced(s: string, c: char): string
    decreases |s|
  {
    if s == "" then "" else (if s[0] == c then ['\\', c] else [s[0]]) + Replaced(s[1..], c)
  }

  /** `quotePGValue`: first backslashes are doubled, then quotes get one. */
  function Quote(v: string): string {
    if NeedsQuotes(v) then "'" + Replaced(Replaced(v, '\\'), '\'') + "'" else v
  }

  function Item(keyword: string, value: string): string {
    keyword + "=" + Quote(value)
  }

  function BuildDSN(cfg: Config): string {
    if cfg.instanceName != "" then
      Item("user", cfg.user) + (" " + Item("password", cfg.password) + (" " + Item("dbname", cfg.name) + (" " + "sslmode=disable")))
    else
      var sslMode := if cfg.sslMode == "" then DEFAULT_SSL_MODE else cfg.sslMode;
      Item("host", cfg.host) + (" " + Item("port", cfg.port) + (" " + Item("user", cfg.user) + (" " + Item("password", cfg.password)
      + (" " + Item("dbname", cfg.name) + (" " + Item("sslmode", sslMode))))))
  }

  // ----- The grammar

  datatype Setting = Setting(keyword: string, value: string)

  datatype ParseError = MissingEquals | UnterminatedQuote

  /** `isspace` of the C locale */
  predicate IsSpace(c: char) {
    c in {' ', '\t', '\n', '\r', VERTICAL_TAB, FORM_FEED}
  }

  function SkipSpaces(s: string): (r: string)
    ensures |r| <= |s|
  {
    if s != "" && IsSpace(s[0]) then SkipSpaces(s[1..]) else s
  }

  /** A keyword runs up to an equals sign or a space. */
  function ReadKeyword(s: string): (r: (string, string))
    ensures |r.1| <= |s| && (s != "" && s[0] != '=' && !IsSpace(s[0]) ==> |r.1| < |s|)
  {
    if s == "" || s[0] == '=' || IsSpace(s[0]) then ("", s)
    else var (k, rest) := ReadKeyword(s[1..]); ([s[0]] + k, rest)
  }

  /** A bare value runs up to a space; a backslash takes the next character literally. */
  function ReadBare(s: string): (r: (string, string))
    ensures |r.1| <= |s|
  {
    if s == "" || IsSpace(s[0]) then ("", s)
    else if s[0] == '\\' then
      if |s| == 1 then ("", "") else var (v, rest) := ReadBare(s[2..]); ([s[1]] + v, rest)
    else var (v, rest) := ReadBare(s[1..]); ([s[0]] + v, rest)
  }

  /** A quoted value runs up to the closing quote; a backslash takes the next character literally. */
  function ReadQuoted(s: string): (r: Option<(string, string)>)
    ensures r.Some? ==> |r.value.1| < |s|
  {
    if s == "" then None
    else if s[0] == '\'' then Some(("", s[1..]))
    else if s[0] == '\\' then
      if |s| == 1 then None
      else match ReadQuoted(s[2..]) case None => None case Some((v, rest)) => Some(([s[1]] + v, rest))
    else match ReadQuoted(s[1..]) case None => None case Some((v, rest)) => Some(([s[0]] + v, rest))
  }

  function ReadValue(s: string): (r: Option<(string, string)>)
    ensures r.Some? ==> |r.value.1| <= |s|
  {
    if s != "" && s[0] == '\'' then ReadQuoted(s[1..]) else Some(ReadBare(s))
  }

  function Parse(s: string): Result<seq<Setting>, ParseError>
    decreases |s|
  {
    var t := SkipSpaces(s);
    if t == "" then Success([])
    else
      var (keyword, afterKeyword) := ReadKeyword(t);
      var u := SkipSpaces(afterKeyword);
      if u == "" || u[0] != '=' then Failure(MissingEquals)
      else
        match ReadValue(SkipSpaces(u[1..]))
        case None => Failure(UnterminatedQuote)
        case Some((value, rest)) => Before(Setting(keyword, value), Parse(rest))
  }

  function Before(first: Setting, more: Result<seq<Setting>, ParseError>): Result<seq<Setting>, ParseError> {
    if more.Success? then Success([first] + more.value) else more
  }

  // ----- Reading back one value

  function Escaped(v: string): string
    decreases |v|
  {
    if v == "" then "" else (if v[0] == '\\' || v[0] == '\'' then ['\\', v[0]] else [v[0]]) + Escaped(v[1..])
  }

  lemma {:induction false} ReplacedSum(s: string, t: string, c: char)
    ensures Replaced(s + t, c) == Replaced(s, c) + Replaced(t, c)
    decreases |s|
  {
    if s == "" {
      assert s + t == t;
    } else {
      assert (s + t)[1..] == s[1..] + t;
      ReplacedSum(s[1..], t, c);
    }
  }

  /** The two replacements in this order escape every backslash and every quote once. */
  lemma {:induction false} TwoReplacementsEscape(v: string)
    ensures Replaced(Replaced(v, '\\'), '\'') == Escaped(v)
    decreases |v|
  {
    if v != "" {
      var head := if v[0] == '\\' then "\\\\" else [v[0]];
      TwoReplacementsEscape(v[1..]);
      ReplacedSum(head, Replaced(v[1..], '\\'), '\'');
      if v[0] == '\\' {
        assert head[1..] == "\\" && head[1..][1..] == "";
        assert Replaced(head, '\'') == "\\" + Replaced("\\", '\'');
        assert Replaced("\\", '\'') == "\\";
      } else {
        assert head[1..] == "";
      }
    }
  }

  lemma {:induction false} QuotedReadsBack(v: string, rest: string)
    ensures ReadQuoted(Escaped(v) + "'" + rest) == Some((v, rest))
    decreases |v|
  {
    var s := Escaped(v) + "'" + rest;
    if v == "" {
      assert s[1..] == rest;
    } else {
      var tail := Escaped(v[1..]) + "'" + rest;
      QuotedReadsBack(v[1..], rest);
      assert v == [v[0]] + v[1..];
      if v[0] == '\\' || v[0] == '\'' {
        assert s == ['\\', v[0]] + tail;
        assert s[2..] == tail;
      } else {
        assert s == [v[0]] + tail;
        assert s[1..] == tail;
      }
    }
  }

  /** Where a bare value stops. */
  predicate Ends(rest: string) {
    rest == "" || IsSpace(rest[0])
  }

  lemma {:induction false} BareReadsBack(v: string, rest: string)
    requires Ends(rest) && forall c | c in v :: !IsSpace(c) && c != '\\'
    ensures ReadBare(v + rest) == (v, rest)
    decreases |v|
  {
    if v == "" {
      assert v + rest == rest;
    } else {
      assert (v + rest)[1..] == v[1..] + rest;
      BareReadsBack(v[1..], rest);
      assert v == [v[0]] + v[1..];
    }
  }

  /** A bare value with a space in it is cut off there. */
  lemma {:induction false} BareIsCut(v: string, rest: string)
    requires forall c | c in v :: c != '\\'
    requires exists c :: c in v && IsSpace(c)
    ensures |ReadBare(v + rest).0| < |v|
    decreases |v|
  {
    var c :| c in v && IsSpace(c);
    assert v == [v[0]] + v[1..];
    assert v[0] in v;
    assert (v + rest)[1..] == v[1..] + rest;
    if !IsSpace(v[0]) {
      assert c in v[1..];
      forall d | d in v[1..] ensures d != '\\' { assert d in v; }
      BareIsCut(v[1..], rest);
    }
  }

  /** The values the printer and the grammar agree on: quoted, or without vertical tab and form feed. */
  predicate Survives(v: string) {
    NeedsQuotes(v) || (VERTICAL_TAB !in v && FORM_FEED !in v)
  }

  lemma BareValues(v: string)
    requires !NeedsQuotes(v)
    ensures v != "" && v[0] != '\'' && forall c | c in v :: c != '\\'
    ensures Survives(v) <==> forall c | c in v :: !IsSpace(c)
  {
    assert v[0] in v;
  }

  /** What may follow a printed value: nothing, or a space and the next keyword. */
  predicate Follows(rest: string) {
    rest == "" || (|rest| > 1 && rest[0] == ' ' && 'a' <= rest[1] <= 'z')
  }

  lemma {:induction false} BareIsNoLonger(v: string, rest: string)
    requires Ends(rest) && forall c | c in v :: c != '\\'
    ensures |ReadBare(v + rest).0| <= |v|
    decreases |v|
  {
    if v == "" {
      assert v + rest == rest;
    } else if !IsSpace(v[0]) {
      assert v[0] in v && (v + rest)[1..] == v[1..] + rest;
      forall d | d in v[1..] ensures d != '\\' { assert d in v; }
      BareIsNoLonger(v[1..], rest);
    }
  }

  lemma {:induction false} SkippedRead(v: string, rest: string)
    requires Follows(rest) && forall c | c in v :: c != '\\' && c != '\''
    ensures var read := ReadValue(SkipSpaces(v + rest));
            read.Some? && (|read.value.0| <= |v| || 'a' <= read.value.0[0] <= 'z')
    decreases |v|
  {
    if v == "" {
      assert v + rest == rest;
      if rest != "" { assert SkipSpaces(rest) == rest[1..]; }
    } else {
      assert v[0] in v && (v + rest)[1..] == v[1..] + rest;
      forall d | d in v[1..] ensures d != '\\' && d != '\'' { assert d in v; }
      if IsSpace(v[0]) { SkippedRead(v[1..], rest); } else { BareIsNoLonger(v, rest); }
    }
  }

  lemma LostValue(v: string, rest: string)
    requires !Survives(v) && Follows(rest)
    ensures ReadValue(SkipSpaces(Quote(v) + rest)).Some? && ReadValue(SkipSpaces(Quote(v) + rest)).value.0 != v
  {
    BareValues(v);
    assert v[0] in v && (v + rest)[1..] == v[1..] + rest;
    forall d | d in v ensures d != '\\' && d != '\'' {}
    if IsSpace(v[0]) {
      forall d | d in v[1..] ensures d != '\\' && d != '\'' { assert d in v; }
      SkippedRead(v[1..], rest);
    } else {
      BareIsCut(v, rest);
    }
  }

  lemma QuotedValue(v: string, rest: string)
    requires NeedsQuotes(v)
    ensures ReadValue(SkipSpaces(Quote(v) + rest)) == Some((v, rest))
  {
    TwoReplacementsEscape(v);
    QuotedReadsBack(v, rest);
    assert Quote(v) == "'" + Escaped(v) + "'";
    OpenQuote(Escaped(v), rest);
  }

  lemma OpenQuote(body: string, rest: string)
    ensures ReadValue(SkipSpaces("'" + body + "'" + rest)) == ReadQuoted(body + "'" + rest)
  {
    var s := "'" + body + "'" + rest;
    assert s[0] == '\'';
    assert s[1..] == body + "'" + rest;
  }

  lemma BareValue(v: string, rest: string)
    requires !NeedsQuotes(v) && Survives(v) && Ends(rest)
    ensures ReadValue(SkipSpaces(Quote(v) + rest)) == Some((v, rest))
  {
    BareValues(v);
    assert v[0] in v;
    assert SkipSpaces(v + rest) == v + rest;
    BareReadsBack(v, rest);
  }

  /** Reading a printed value gives it back exactly when it survives. */
  lemma ValueRoundTrip(v: string, rest: string)
    requires Follows(rest)
    ensures var read := ReadValue(SkipSpaces(Quote(v) + rest));
            read.Some? && (read.value.0 == v <==> Survives(v)) && (Survives(v) ==> read.value.1 == rest)
  {
    if NeedsQuotes(v) {
      QuotedValue(v, rest);
    } else if Survives(v) {
      BareValue(v, rest);
    } else {
      LostValue(v, rest);
    }
  }

  lemma {:induction false} ReplacedIsNoShorter(s: string, c: char)
    ensures |s| <= |Replaced(s, c)|
    decreases |s|
  {
    if s != "" { ReplacedIsNoShorter(s[1..], c); }
  }

  /** A value is printed as it is exactly if it is not empty and has no space, tab, line break, equals sign, quote or backslash. */
  lemma PlainValues(v: string)
    ensures Quote(v) == v <==> v != "" && forall c | c in v :: c !in {' ', '\t', '\n', '\r', '=', '\'', '\\'}
  {
    ReplacedIsNoShorter(v, '\\');
    ReplacedIsNoShorter(Replaced(v, '\\'), '\'');
  }

  // ----- Reading back a whole string

  /** Lower-case letters, as in every keyword the printer uses. */
  predicate Keyword(k: string) {
    k != "" && forall c | c in k :: 'a' <= c <= 'z'
  }

  lemma {:induction false} KeywordReadsBack(k: string, rest: string)
    requires forall c | c in k :: 'a' <= c <= 'z'
    requires rest != "" && rest[0] == '='
    ensures ReadKeyword(k + rest) == (k, rest)
    decreases |k|
  {
    if k == "" {
      assert k + rest == rest;
    } else {
      assert (k + rest)[1..] == k[1..] + rest;
      assert k == [k[0]] + k[1..] && k[0] in k;
      forall d | d in k[1..] ensures 'a' <= d <= 'z' { assert d in k; }
      KeywordReadsBack(k[1..], rest);
    }
  }

  /** One setting after another, each after a space but the first. */
  function Render(settings: seq<Setting>): string
    decreases |settings|
  {
    if settings == [] then ""
    else Item(settings[0].keyword, settings[0].value) + RenderMore(settings[1..])
  }

  function RenderMore(settings: seq<Setting>): string
    decreases |settings|
  {
    if settings == [] then ""
    else " " + Item(settings[0].keyword, settings[0].value) + RenderMore(settings[1..])
  }

  ghost predicate Keywords(settings: seq<Setting>) {
    forall i | 0 <= i < |settings| :: Keyword(settings[i].keyword)
  }

  lemma MoreIsSpaceAndRender(settings: seq<Setting>)
    requires Keywords(settings)
    ensures Follows(RenderMore(settings))
    ensures Parse(RenderMore(settings)) == Parse(Render(settings))
  {
    if settings != [] {
      var k, item := settings[0].keyword, Item(settings[0].keyword, settings[0].value);
      var r := Render(settings);
      assert k[0] in k && item[0] == k[0] && r[0] == item[0];
      SpaceThen(item, RenderMore(settings[1..]));
      ParseSkips(r);
    }
  }

  lemma SpaceThen(item: string, more: string)
    ensures " " + item + more == " " + (item + more)
  {
  }

  lemma ParseSkips(r: string)
    ensures Parse(" " + r) == Parse(r)
  {
    assert (" " + r)[1..] == r;
    assert SkipSpaces(" " + r) == SkipSpaces(r);
  }

  /** The first setting is read, and parsing goes on behind it. */
  lemma ParseStep(k: string, v: string, rest: string)
    requires Keyword(k) && Follows(rest)
    ensures ReadValue(SkipSpaces(Quote(v) + rest)).Some?
    ensures var read := ReadValue(SkipSpaces(Quote(v) + rest)).value;
            Parse(Item(k, v) + rest) == Before(Setting(k, read.0), Parse(read.1))
  {
    var after := "=" + Quote(v) + rest;
    var s := Item(k, v) + rest;
    assert s == k + after;
    assert k[0] in k && s[0] == k[0];
    assert SkipSpaces(s) == s;
    KeywordReadsBack(k, after);
    assert SkipSpaces(after) == after;
    assert after[1..] == Quote(v) + rest;
    ValueRoundTrip(v, rest);
  }

  lemma {:induction false} RenderRoundTrip(settings: seq<Setting>)
    requires Keywords(settings)
    ensures Parse(Render(settings)) == Success(settings) <==> forall i | 0 <= i < |settings| :: Survives(settings[i].value)
    decreases |settings|
  {
    if settings != [] {
      var first, tail := settings[0], settings[1..];
      var rest := RenderMore(tail);
      assert settings == [first] + tail;
      MoreIsSpaceAndRender(tail);
      ParseStep(first.keyword, first.value, rest);
      ValueRoundTrip(first.value, rest);
      RenderRoundTrip(tail);
    }
  }

  // ----- The connection string

  function SettingsOf(cfg: Config): seq<Setting> {
    if cfg.instanceName != "" then
      [Setting("user", cfg.user), Setting("password", cfg.password), Setting("dbname", cfg.name), Setting("sslmode", "disable")]
    else
      [Setting("host", cfg.host), Setting("port", cfg.port), Setting("user", cfg.user), Setting("password", cfg.password),
       Setting("dbname", cfg.name), Setting("sslmode", if cfg.sslMode == "" then DEFAULT_SSL_MODE else cfg.sslMode)]
  }

  lemma RenderOne(s: Setting, more: seq<Setting>, text: string)
    requires RenderMore(more) == text
    ensures RenderMore([s] + more) == " " + Item(s.keyword, s.value) + text
    ensures Render([s] + more) == Item(s.keyword, s.value) + text
  {
    assert ([s] + more)[1..] == more;
  }

  lemma DisableIsBare()
    ensures Item("sslmode", "disable") == "sslmode=disable"
  {
    assert !NeedsQuotes("disable");
  }

  lemma BuildForConnector(cfg: Config)
    requires cfg.instanceName != ""
    ensures BuildDSN(cfg) == Render(SettingsOf(cfg))
  {
    var a, b, c, d := Setting("user", cfg.user), Setting("password", cfg.password), Setting("dbname", cfg.name), Setting("sslmode", "disable");
    DisableIsBare();
    var t3 := " " + Item("sslmode", "disable");
    assert t3 + "" == t3;
    RenderOne(d, [], "");
    var t2 := " " + Item("dbname", cfg.name) + t3;
    RenderOne(c, [d], t3);
    var t1 := " " + Item("password", cfg.password) + t2;
    RenderOne(b, [c] + [d], t2);
    RenderOne(a, [b] + ([c] + [d]), t1);
    assert SettingsOf(cfg) == [a] + ([b] + ([c] + [d]));
  }

  lemma BuildForTcp(cfg: Config)
    requires cfg.instanceName == ""
    ensures BuildDSN(cfg) == Render(SettingsOf(cfg))
  {
    var sslMode := if cfg.sslMode == "" then DEFAULT_SSL_MODE else cfg.sslMode;
    var a, b, c, d, e, f := Setting("host", cfg.host), Setting("port", cfg.port), Setting("user", cfg.user),
                            Setting("password", cfg.password), Setting("dbname", cfg.name), Setting("sslmode", sslMode);
    var t5 := " " + Item("sslmode", sslMode);
    assert t5 + "" == t5;
    RenderOne(f, [], "");
    var t4 := " " + Item("dbname", cfg.name) + t5;
    RenderOne(e, [f], t5);
    var t3 := " " + Item("password", cfg.password) + t4;
    RenderOne(d, [e] + [f], t4);
    var t2 := " " + Item("user", cfg.user) + t3;
    RenderOne(c, [d] + ([e] + [f]), t3);
    var t1 := " " + Item("port", cfg.port) + t2;
    RenderOne(b, [c] + ([d] + ([e] + [f])), t2);
    RenderOne(a, [b] + ([c] + ([d] + ([e] + [f]))), t1);
    assert SettingsOf(cfg) == [a] + ([b] + ([c] + ([d] + ([e] + [f]))));
  }

  lemma SettingsHaveKeywords(cfg: Config)
    ensures Keywords(SettingsOf(cfg))
  {
  }

  /**
   * The grammar reads `BuildDSN` back as exactly the configured values if and only if every
   * value is quoted or free of vertical tab and form feed. The connector gets neither host
   * nor port, and its dialer does the encryption; an empty mode means no encryption.
   */
  lemma DsnRoundTrip(cfg: Config)
    ensures cfg.instanceName != "" ==>
            (Parse(BuildDSN(cfg)) == Success([Setting("user", cfg.user), Setting("password", cfg.password), Setting("dbname", cfg.name),
                                              Setting("sslmode", "disable")])
             <==> Survives(cfg.user) && Survives(cfg.password) && Survives(cfg.name))
    ensures cfg.instanceName == "" ==>
            (Parse(BuildDSN(cfg)) == Success([Setting("host", cfg.host), Setting("port", cfg.port), Setting("user", cfg.user),
                                              Setting("password", cfg.password), Setting("dbname", cfg.name),
                                              Setting("sslmode", if cfg.sslMode == "" then "disable" else cfg.sslMode)])
             <==> Survives(cfg.host) && Survives(cfg.port) && Survives(cfg.user) && Survives(cfg.password) && Survives(cfg.name)
                  && Survives(cfg.sslMode))
  {
    SettingsHaveKeywords(cfg);
    RenderRoundTrip(SettingsOf(cfg));
    PlainWordsSurvive();
    if cfg.instanceName != "" { BuildForConnector(cfg); } else { BuildForTcp(cfg); }
    SettingsSurvive(cfg);
  }

  lemma PlainWordsSurvive()
    ensures Survives("disable") && Survives("")
  {
    assert "disable"[0] != VERTICAL_TAB;
  }

  lemma SettingsSurvive(cfg: Config)
    ensures (forall i | 0 <= i < |SettingsOf(cfg)| :: Survives(SettingsOf(cfg)[i].value)) <==>
            if cfg.instanceName != "" then Survives(cfg.user) && Survives(cfg.password) && Survives(cfg.name)
            else Survives(cfg.host) && Survives(cfg.port) && Survives(cfg.user) && Survives(cfg.password) && Survives(cfg.name)
                 && Survives(cfg.sslMode)
  {
    var all := SettingsOf(cfg);
    PlainWordsSurvive();
    if cfg.instanceName != "" {
      assert all[0].value == cfg.user && all[1].value == cfg.password && all[2].value == cfg.name && all[3].value == "disable";
    } else {
      assert all[0].value == cfg.host && all[1].value == cfg.port && all[2].value == cfg.user && all[3].value == cfg.password;
      assert all[4].value == cfg.name;
      assert all[5].value == if cfg.sslMode == "" then DEFAULT_SSL_MODE else cfg.sslMode;
    }
  }
}
