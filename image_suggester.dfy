/** The icon suggester: the icon files found in the bundled icon directory,
    the keywords drawn from their names, the score that ranks an icon against
    a connection's name, description and target, the best suggestion, the
    icon search, and the name a copied icon gets. The directory listing, the
    clock and the name-similarity ratio are inputs. */
module ImageSuggester {
  import opened Common

  // ---------------------------------------------------------------- keywords

  /** The words `_extract_keywords` strips from the end of a name, in the
      order the pattern lists them. */
  const Suffixes: seq<string> := ["logo", "icon", "app", "service"]

  /** The suffix word `s` ends with, if any; the four words end in four
      different letters, so there is at most one. */
  function EndingWord(s: string): (r: Option<string>)
    ensures r.Some? ==> r.value in Suffixes && EndsWith(s, r.value)
    ensures r.None? ==> forall w :: w in Suffixes ==> !EndsWith(s, w)
  {
    if EndsWith(s, "logo") then Some("logo")
    else if EndsWith(s, "icon") then Some("icon")
    else if EndsWith(s, "app") then Some("app")
    else if EndsWith(s, "service") then Some("service")
    else None
  }

  /** `re.sub(r'(logo|icon|app|service)$', '', s)`. Without MULTILINE `$`
      matches at the end and just before a final newline; the two cannot
      both succeed, so at most one word is removed. */
  function RemoveSuffix(s: string): (r: string)
    ensures |r| <= |s|
  {
    match EndingWord(s)
    case Some(w) => s[..|s| - |w|]
    case None =>
      if s != [] && s[|s| - 1] == '\n' then
        match EndingWord(s[..|s| - 1])
        case Some(w) => s[..|s| - 1 - |w|] + "\n"
        case None => s
      else s
  }

  /** A name with a suffix word appended ends with that word and no other. */
  lemma EndingWordAppended(x: string, k: nat)
    requires k < |Suffixes|
    ensures EndingWord(x + Suffixes[k]) == Some(Suffixes[k])
  {
    var w := Suffixes[k];
    var s := x + w;
    assert s[|s| - |w|..] == w;
    assert s[|s| - 1] == w[|w| - 1];
    if k != 0 && EndsWith(s, "logo") { EndsWithLast(s, "logo"); }
    if k != 1 && EndsWith(s, "icon") { EndsWithLast(s, "icon"); }
    if k != 2 && EndsWith(s, "app") { EndsWithLast(s, "app"); }
  }

  lemma EndsWithLast(s: string, w: string)
    requires w != [] && EndsWith(s, w)
    ensures s[|s| - 1] == w[|w| - 1]
  {
    assert s[|s| - |w|..][|w| - 1] == s[|s| - 1];
  }

  /** Exactly one suffix word is removed: appending one to a name and
      removing it gives the name back, even when the name itself ends with
      another suffix word; the same holds before a final newline. */
  lemma RemoveSuffixAppended(x: string, k: nat)
    requires k < |Suffixes|
    ensures RemoveSuffix(x + Suffixes[k]) == x
  {
    EndingWordAppended(x, k);
    var s := x + Suffixes[k];
    assert s[..|s| - |Suffixes[k]|] == x;
  }

  /** No suffix word ends in a newline. */
  lemma EndingWordNewline(t: string)
    requires t != [] && t[|t| - 1] == '\n'
    ensures EndingWord(t) == None
  {
    if EndsWith(t, "logo") { EndsWithLast(t, "logo"); }
    if EndsWith(t, "icon") { EndsWithLast(t, "icon"); }
    if EndsWith(t, "app") { EndsWithLast(t, "app"); }
    if EndsWith(t, "service") { EndsWithLast(t, "service"); }
  }

  lemma RemoveSuffixBeforeNewline(x: string, k: nat)
    requires k < |Suffixes|
    ensures RemoveSuffix(x + Suffixes[k] + "\n") == x + "\n"
  {
    var s := x + Suffixes[k];
    var t := s + "\n";
    EndingWordNewline(t);
    assert t[..|t| - 1] == s;
    EndingWordAppended(x, k);
    assert t[..|t| - 1 - |Suffixes[k]|] == x;
  }

  /** The separators of `re.split(r'[_\-\s\.]+', ...)`. */
  predicate IsSep(c: char)
  {
    c == '_' || c == '-' || c == '.' || IsSpace(c)
  }

  /** Splitting at every separator character; runs of separators leave
      empty pieces, which the length filter drops, so this agrees with
      splitting on runs once filtered. */
  function SplitSep(s: string): (r: seq<string>)
    ensures |r| >= 1
    decreases |s|
  {
    if s == [] then [""]
    else
      var rest := SplitSep(s[1..]);
      if IsSep(s[0]) then [""] + rest
      else [[s[0]] + rest[0]] + rest[1..]
  }

  /** No piece holds a separator. */
  lemma {:induction false} SplitSepPieces(s: string)
    ensures forall k, j :: 0 <= k < |SplitSep(s)| && 0 <= j < |SplitSep(s)[k]| ==> !IsSep(SplitSep(s)[k][j])
    decreases |s|
  {
    if s != [] {
      SplitSepPieces(s[1..]);
      var rest := SplitSep(s[1..]);
      if !IsSep(s[0]) {
        var first := [s[0]] + rest[0];
        assert forall j :: 0 <= j < |first| ==> !IsSep(first[j]) by {
          forall j | 0 <= j < |first| ensures !IsSep(first[j]) {
            if j > 0 {
              assert first[j] == rest[0][j - 1];
            }
          }
        }
      }
    }
  }

  /** `[k for k in pieces if len(k) > 1]`. */
  function LongPieces(pieces: seq<string>): (r: seq<string>)
    ensures |r| <= |pieces|
    ensures forall k :: 0 <= k < |r| ==> |r[k]| > 1 && r[k] in pieces
    decreases |pieces|
  {
    if pieces == [] then []
    else (if |pieces[0]| > 1 then [pieces[0]] else []) + LongPieces(pieces[1..])
  }

  lemma {:induction false} LongPiecesAppend(a: seq<string>, b: seq<string>)
    ensures LongPieces(a + b) == LongPieces(a) + LongPieces(b)
    decreases |a|
  {
    if a == [] {
      assert a + b == b;
    } else {
      var ab := a + b;
      var head := if |a[0]| > 1 then [a[0]] else [];
      assert ab[0] == a[0] && ab[1..] == a[1..] + b;
      LongPiecesAppend(a[1..], b);
      assert LongPieces(ab) == head + LongPieces(a[1..] + b);
      assert LongPieces(a) == head + LongPieces(a[1..]);
    }
  }

  /** The words of a cleaned name: the maximal separator-free runs longer
      than one character. */
  function Tokens(s: string): (r: seq<string>)
    ensures forall k :: 0 <= k < |r| ==> |r[k]| > 1
    ensures forall k, j :: 0 <= k < |r| && 0 <= j < |r[k]| ==> !IsSep(r[k][j])
  {
    SplitSepPieces(s);
    var r := LongPieces(SplitSep(s));
    assert forall k :: 0 <= k < |r| ==> r[k] in SplitSep(s);
    r
  }

  /** Splitting at a separator splits the pieces: the first piece of the
      rest is glued to the end of `a`'s last piece no more. */
  lemma {:induction false} SplitSepAt(a: string, c: char, b: string)
    requires IsSep(c)
    ensures SplitSep(a + [c] + b) == SplitSep(a) + SplitSep(b)
    decreases |a|
  {
    if a == [] {
      assert a + [c] + b == [c] + b;
      SplitSepCons(c, b);
    } else {
      var t := a[1..] + [c] + b;
      assert a + [c] + b == [a[0]] + t;
      assert a == [a[0]] + a[1..];
      SplitSepAt(a[1..], c, b);
      SplitSepCons(a[0], t);
      SplitSepCons(a[0], a[1..]);
      if IsSep(a[0]) {
        assert [""] + (SplitSep(a[1..]) + SplitSep(b)) == [""] + SplitSep(a[1..]) + SplitSep(b);
      } else {
        GlueAppend(a[0], SplitSep(a[1..]), SplitSep(b));
      }
    }
  }

  /** Gluing a character to the first piece commutes with appending pieces. */
  lemma GlueAppend(x: char, A: seq<string>, B: seq<string>)
    requires |A| >= 1
    ensures [[x] + (A + B)[0]] + (A + B)[1..] == [[x] + A[0]] + A[1..] + B
  {
    assert (A + B)[0] == A[0] && (A + B)[1..] == A[1..] + B;
  }

  /** One step of the split, for a string given by its first character. */
  lemma SplitSepCons(x: char, t: string)
    ensures IsSep(x) ==> SplitSep([x] + t) == [""] + SplitSep(t)
    ensures !IsSep(x) ==> SplitSep([x] + t) == [[x] + SplitSep(t)[0]] + SplitSep(t)[1..]
  {
    assert ([x] + t)[0] == x && ([x] + t)[1..] == t;
  }

  /** A word without separators is one piece. */
  lemma {:induction false} SplitSepWord(s: string)
    requires forall j :: 0 <= j < |s| ==> !IsSep(s[j])
    ensures SplitSep(s) == [s]
    decreases |s|
  {
    if s != [] {
      SplitSepWord(s[1..]);
      assert [s[0]] + s[1..] == s;
    }
  }

  /** The tokens of two parts joined by a separator are those of each part,
      in order; a separator-free word longer than one character is its own
      only token. */
  lemma TokensJoin(a: string, c: char, b: string)
    requires IsSep(c)
    ensures Tokens(a + [c] + b) == Tokens(a) + Tokens(b)
  {
    SplitSepAt(a, c, b);
    LongPiecesAppend(SplitSep(a), SplitSep(b));
  }

  lemma TokensWord(s: string)
    requires |s| > 1 && forall j :: 0 <= j < |s| ==> !IsSep(s[j])
    ensures Tokens(s) == [s]
  {
    SplitSepWord(s);
  }

  predicate NoUpper(s: string)
  {
    forall j :: 0 <= j < |s| ==> !('A' <= s[j] <= 'Z')
  }

  /** Pieces are made of characters of the string they come from. */
  lemma {:induction false} SplitSepNoUpper(s: string)
    requires NoUpper(s)
    ensures forall k :: 0 <= k < |SplitSep(s)| ==> NoUpper(SplitSep(s)[k])
    decreases |s|
  {
    if s != [] {
      SplitSepNoUpper(s[1..]);
      var rest := SplitSep(s[1..]);
      assert NoUpper(rest[0]);
      assert NoUpper([s[0]] + rest[0]);
    }
  }

  /** `_extract_keywords`: lower-case, drop one trailing suffix word, split
      on separator runs, keep the pieces longer than one character. */
  function ExtractKeywords(filename: string): (r: seq<string>)
    ensures forall k :: 0 <= k < |r| ==> |r[k]| > 1
    ensures forall k, j :: 0 <= k < |r| && 0 <= j < |r[k]| ==> !IsSep(r[k][j])
  {
    Tokens(RemoveSuffix(Lower(filename)))
  }

  lemma PrefixNoUpper(s: string, n: nat)
    requires NoUpper(s) && n <= |s|
    ensures NoUpper(s[..n]) && NoUpper(s[..n] + "\n")
  {
    var p := s[..n] + "\n";
    assert forall j :: 0 <= j < n ==> p[j] == s[j];
  }

  /** Removing a suffix word keeps a prefix of the name, and its final
      newline when the word sat before one. */
  lemma RemoveSuffixNoUpper(l: string)
    requires NoUpper(l)
    ensures NoUpper(RemoveSuffix(l))
  {
    match EndingWord(l) {
      case Some(w) =>
        PrefixNoUpper(l, |l| - |w|);
      case None =>
        if l != [] && l[|l| - 1] == '\n' {
          match EndingWord(l[..|l| - 1]) {
            case Some(w) =>
              PrefixNoUpper(l, |l| - 1 - |w|);
              assert l[..|l| - 1][..|l| - 1 - |w|] == l[..|l| - 1 - |w|];
            case None =>
          }
        }
    }
  }

  /** Keywords are in lower case. */
  lemma KeywordsLower(filename: string)
    ensures forall k :: 0 <= k < |ExtractKeywords(filename)| ==> NoUpper(ExtractKeywords(filename)[k])
  {
    var l := Lower(filename);
    assert NoUpper(l);
    RemoveSuffixNoUpper(l);
    SplitSepNoUpper(RemoveSuffix(l));
  }

  // -------------------------------------------------------- the icon files

  /** `os.path.splitext`: the extension starts at the last dot after the
      last slash, unless only dots come before it in the final component. */
  function SplitExt(p: string): (r: (string, string))
    ensures r.0 + r.1 == p
    ensures r.1 != [] ==> r.1[0] == '.' && '.' !in r.1[1..] && '/' !in r.1
  {
    var sep: int := match LastIndexOf(p, '/') case Some(i) => i case None => -1;
    match LastIndexOf(p, '.')
    case None => (p, "")
    case Some(dot) =>
      if dot > sep && exists j :: sep + 1 <= j < dot && p[j] != '.' then
        assert p[..dot] + p[dot..] == p;
        (p[..dot], p[dot..])
      else (p, "")
  }

  /** A leading-dot name such as `.png` has no extension. */
  lemma HiddenFileHasNoExtension(rest: string)
    requires '.' !in rest && '/' !in rest
    ensures SplitExt("." + rest) == ("." + rest, "")
  {
    var p := "." + rest;
    assert p[1..] == rest;
    assert forall j :: 1 <= j < |p| ==> p[j] != '.';
  }

  const SupportedExtensions: set<string> := {".png", ".jpg", ".jpeg", ".gif", ".svg"}

  /** An icon as `_load_available_icons` records it (its path is the
      directory joined with the file name, and is not kept). */
  datatype Icon = Icon(filename: string, name: string, keywords: seq<string>)

  /** The record kept for a listed file, if its extension is supported. */
  function IconOf(filename: string): (r: Option<Icon>)
    ensures r.Some? <==> Lower(SplitExt(filename).1) in SupportedExtensions
    ensures r.Some? ==> r.value.filename == filename && r.value.name == Lower(SplitExt(filename).0)
  {
    var (name, ext) := SplitExt(filename);
    if Lower(ext) in SupportedExtensions then Some(Icon(filename, Lower(name), ExtractKeywords(name)))
    else None
  }

  /** The icons kept from a listing, in listing order. */
  function IconsFrom(filenames: seq<string>): (r: seq<Icon>)
    ensures |r| <= |filenames|
    decreases |filenames|
  {
    if filenames == [] then []
    else
      var last := filenames[|filenames| - 1];
      IconsFrom(filenames[..|filenames| - 1]) + (match IconOf(last) case Some(i) => [i] case None => [])
  }

  /** Every kept icon comes from a listed file with a supported extension,
      and every such file is kept. */
  lemma {:induction false} IconsFromMembers(filenames: seq<string>)
    ensures forall i :: i in IconsFrom(filenames) ==> i.filename in filenames && IconOf(i.filename) == Some(i)
    ensures forall f :: f in filenames && IconOf(f).Some? ==> IconOf(f).value in IconsFrom(filenames)
    decreases |filenames|
  {
    if filenames != [] {
      var init := filenames[..|filenames| - 1];
      IconsFromMembers(init);
      assert filenames == init + [filenames[|filenames| - 1]];
    }
  }

  /** `_load_available_icons`: no icons when the directory is missing or
      cannot be listed (`None`), otherwise one record per supported file. */
  method LoadAvailableIcons(listing: Option<seq<string>>) returns (icons: seq<Icon>)
    ensures listing.None? ==> icons == []
    ensures listing.Some? ==> icons == IconsFrom(listing.value)
  {
    icons := [];
    if listing.None? {
      return;
    }
    var filenames := listing.value;
    for i := 0 to |filenames|
      invariant icons == IconsFrom(filenames[..i])
    {
      assert filenames[..i + 1][..i] == filenames[..i];
      var filename := filenames[i];
      var (name, ext) := SplitExt(filename);
      if Lower(ext) in SupportedExtensions {
        icons := icons + [Icon(filename, Lower(name), ExtractKeywords(name))];
      }
    }
    assert filenames[..|filenames|] == filenames;
  }

  /** `get_available_icons`: file name, name and keywords of every icon. */
  function AvailableIcons(icons: seq<Icon>): (r: seq<Dict>)
    ensures |r| == |icons|
    ensures forall k :: 0 <= k < |icons| ==>
              && Keys(r[k]) == ["filename", "name", "keywords"]
              && r[k][0].1 == VStr(icons[k].filename)
              && r[k][2].1 == VList(StringValues(icons[k].keywords))
  {
    seq(|icons|, k requires 0 <= k < |icons| =>
      [("filename", VStr(icons[k].filename)), ("name", VStr(icons[k].name)),
       ("keywords", VList(StringValues(icons[k].keywords)))])
  }

  // ------------------------------------------------------------- scoring

  /** `service_patterns`: each service with the words that reveal it, in
      dictionary order. */
  const ServicePatterns: seq<(string, seq<string>)> := [
    ("proxmox", ["proxmox", "pve"]),
    ("grafana", ["grafana"]),
    ("jenkins", ["jenkins"]),
    ("docker", ["docker", "portainer"]),
    ("nginx", ["nginx"]),
    ("apache", ["apache", "httpd"]),
    ("mysql", ["mysql", "mariadb"]),
    ("postgresql", ["postgres", "postgresql", "pg"]),
    ("redis", ["redis"]),
    ("mongodb", ["mongo", "mongodb"]),
    ("elasticsearch", ["elastic", "elasticsearch"]),
    ("kibana", ["kibana"]),
    ("prometheus", ["prometheus"]),
    ("alertmanager", ["alertmanager"]),
    ("plex", ["plex"]),
    ("jellyfin", ["jellyfin"]),
    ("nextcloud", ["nextcloud"]),
    ("homeassistant", ["hass", "homeassistant", "home-assistant"]),
    ("pihole", ["pihole", "pi-hole"]),
    ("adguard", ["adguard"]),
    ("sonarr", ["sonarr"]),
    ("radarr", ["radarr"]),
    ("lidarr", ["lidarr"]),
    ("bazarr", ["bazarr"]),
    ("transmission", ["transmission"]),
    ("deluge", ["deluge"]),
    ("qbittorrent", ["qbittorrent"]),
    ("portainer", ["portainer"]),
    ("watchtower", ["watchtower"]),
    ("traefik", ["traefik"]),
    ("caddy", ["caddy"]),
    ("minio", ["minio"]),
    ("gitea", ["gitea"]),
    ("gitlab", ["gitlab"]),
    ("github", ["github"]),
    ("bitwarden", ["bitwarden", "vaultwarden"]),
    ("freshrss", ["freshrss"]),
    ("miniflux", ["miniflux"]),
    ("bookstack", ["bookstack"]),
    ("wikijs", ["wikijs", "wiki"]),
    ("uptime", ["uptime", "kuma"]),
    ("netdata", ["netdata"]),
    ("zabbix", ["zabbix"]),
    ("influxdb", ["influx"]),
    ("chronograf", ["chronograf"]),
    ("telegraf", ["telegraf"])
  ]

  /** Some pattern occurs in `text`. */
  predicate AnyIn(patterns: seq<string>, text: string)
  {
    exists p :: p in patterns && Contains(text, p)
  }

  /** A service is revealed by the search text and the icon names it. */
  predicate ServiceApplies(entry: (string, seq<string>), combined: string, iconName: string)
  {
    AnyIn(entry.1, combined) && (Contains(iconName, entry.0) || AnyIn(entry.1, iconName))
  }

  function ServiceScoreFrom(i: nat, combined: string, iconName: string): (r: int)
    ensures r == 0 || r == 25
    ensures r == 25 <==> exists k :: i <= k < |ServicePatterns| && ServiceApplies(ServicePatterns[k], combined, iconName)
    decreases |ServicePatterns| - i
  {
    if i >= |ServicePatterns| then 0
    else if ServiceApplies(ServicePatterns[i], combined, iconName) then 25
    else ServiceScoreFrom(i + 1, combined, iconName)
  }

  /** `_get_service_pattern_score` (lines 187-197), the search terms and the
      URL joined by spaces. */
  function ServiceScore(searchTerms: seq<string>, targetUrl: string, iconName: string): (r: int)
    ensures r == 0 || r == 25
  {
    ServiceScoreFrom(0, JoinWith(" ", searchTerms + [Lower(targetUrl)]), iconName)
  }

  /** The service score is 25 exactly when some service of the table is
      revealed by the search terms or the URL and named by the icon. */
  lemma ServiceScoreMeaning(searchTerms: seq<string>, targetUrl: string, iconName: string)
    ensures var combined := JoinWith(" ", searchTerms + [Lower(targetUrl)]);
      ServiceScore(searchTerms, targetUrl, iconName) == 25 <==>
        exists i :: 0 <= i < |ServicePatterns| && ServiceApplies(ServicePatterns[i], combined, iconName)
  {
  }

  /** Line 192 reads the URL too: a target naming a service reveals it. */
  lemma UrlRevealsService(searchTerms: seq<string>, targetUrl: string, iconName: string, i: nat, p: string)
    requires i < |ServicePatterns| && p in ServicePatterns[i].1
    requires Contains(Lower(targetUrl), p) && Contains(iconName, ServicePatterns[i].0)
    ensures ServiceScore(searchTerms, targetUrl, iconName) == 25
  {
    var parts := searchTerms + [Lower(targetUrl)];
    JoinWithContainsPart(" ", parts, |parts| - 1);
    ContainsAt(JoinWith(" ", parts), Lower(targetUrl));
    ContainsTransitive(JoinWith(" ", parts), Lower(targetUrl), p);
    ServiceScoreMeaning(searchTerms, targetUrl, iconName);
  }

  /** A search keyword found among the icon's keywords or inside its name. */
  predicate KeywordHit(keyword: string, icon: Icon)
  {
    keyword in icon.keywords || Contains(icon.name, keyword)
  }

  /** The icon keywords that contain, or are contained in, a search keyword. */
  function PartialCount(keyword: string, iconKeywords: seq<string>): (r: nat)
    ensures r <= |iconKeywords|
    decreases |iconKeywords|
  {
    if iconKeywords == [] then 0
    else
      var ik := iconKeywords[|iconKeywords| - 1];
      PartialCount(keyword, iconKeywords[..|iconKeywords| - 1])
        + (if Contains(ik, keyword) || Contains(keyword, ik) then 1 else 0)
  }

  /** `keyword_matches`: one per search keyword hit, plus a half per partial
      match with an icon keyword. */
  function KeywordMatches(keywords: seq<string>, icon: Icon): (r: real)
    ensures 0.0 <= r
    decreases |keywords|
  {
    if keywords == [] then 0.0
    else
      var k := keywords[|keywords| - 1];
      KeywordMatches(keywords[..|keywords| - 1], icon)
        + (if KeywordHit(k, icon) then 1.0 else 0.0) + 0.5 * PartialCount(k, icon.keywords) as real
  }

  /** Three points per search keyword longer than three characters found in
      the icon name. */
  function LongBonus(keywords: seq<string>, iconName: string): (r: nat)
    ensures r <= 3 * |keywords|
    decreases |keywords|
  {
    if keywords == [] then 0
    else
      var k := keywords[|keywords| - 1];
      LongBonus(keywords[..|keywords| - 1], iconName) + (if |k| > 3 && Contains(iconName, k) then 3 else 0)
  }

  /** `min(x, 15)` for the keyword term. */
  function Cap(x: real): (r: real)
    ensures r <= 15.0 && (r == x || r == 15.0)
  {
    if x < 15.0 then x else 15.0
  }

  /** `SequenceMatcher(None, a, b).ratio()`, an input of the model. */
  type Ratio = (string, string) -> real

  /** `_calculate_match_score`. */
  function Score(icon: Icon, connectionName: string, keywords: seq<string>, targetUrl: string, ratio: Ratio): real
  {
    var name := Lower(connectionName);
    (if name == icon.name then 50.0 else 0.0)
      + ratio(name, icon.name) * 20.0
      + ServiceScore(keywords + [name], targetUrl, icon.name) as real
      + Cap(KeywordMatches(keywords, icon) * 5.0)
      + LongBonus(keywords, icon.name) as real
  }

  /** The score is the sum of bounded parts: an exact name match alone lifts
      an icon to 50, the keyword term never exceeds 15, and with a ratio in
      [0, 1] the whole stays within 110 plus 3 per keyword. */
  lemma ScoreBounds(icon: Icon, connectionName: string, keywords: seq<string>, targetUrl: string, ratio: Ratio)
    requires 0.0 <= ratio(Lower(connectionName), icon.name) <= 1.0
    ensures 0.0 <= Score(icon, connectionName, keywords, targetUrl, ratio)
              <= 110.0 + 3.0 * |keywords| as real
    ensures Lower(connectionName) == icon.name ==> Score(icon, connectionName, keywords, targetUrl, ratio) >= 50.0
    ensures Lower(connectionName) != icon.name ==>
              Score(icon, connectionName, keywords, targetUrl, ratio) <= 60.0 + 3.0 * |keywords| as real
  {
    var name := Lower(connectionName);
    var c := Cap(KeywordMatches(keywords, icon) * 5.0);
    assert 0.0 <= c <= 15.0;
    var b := LongBonus(keywords, icon.name) as real;
    assert b <= 3.0 * |keywords| as real;
    SumBounds(if name == icon.name then 50.0 else 0.0, ratio(name, icon.name),
              ServiceScore(keywords + [name], targetUrl, icon.name) as real, c, b, |keywords| as real);
  }

  lemma SumBounds(exact: real, r: real, service: real, c: real, b: real, n: real)
    requires exact == 0.0 || exact == 50.0
    requires 0.0 <= r <= 1.0 && (service == 0.0 || service == 25.0)
    requires 0.0 <= c <= 15.0 && 0.0 <= b <= 3.0 * n
    ensures 0.0 <= exact + r * 20.0 + service + c + b <= 110.0 + 3.0 * n
    ensures exact == 0.0 ==> exact + r * 20.0 + service + c + b <= 60.0 + 3.0 * n
  {
  }

  /** The score loop of `_calculate_match_score`: the exact-name bonus, the
      weighted ratio and the service score, then the capped keyword count
      and the long-keyword bonus, each built by its own loop. */
  method MatchScore(icon: Icon, connectionName: string, keywords: seq<string>, targetUrl: string, ratio: Ratio)
    returns (score: real)
    ensures score == Score(icon, connectionName, keywords, targetUrl, ratio)
  {
    var name := Lower(connectionName);
    score := 0.0;
    if name == icon.name {
      score := score + 50.0;
    }
    score := score + ratio(name, icon.name) * 20.0;
    score := score + ServiceScore(keywords + [name], targetUrl, icon.name) as real;
    var matches := CountKeywordMatches(keywords, icon);
    score := score + Cap(matches * 5.0);
    var bonus := CountLongBonus(keywords, icon.name);
    score := score + bonus as real;
  }

  /** Lines 166-173: the keyword count, one search keyword at a time. */
  method CountKeywordMatches(keywords: seq<string>, icon: Icon) returns (matches: real)
    ensures matches == KeywordMatches(keywords, icon)
  {
    matches := 0.0;
    for i := 0 to |keywords|
      invariant matches == KeywordMatches(keywords[..i], icon)
    {
      var keyword := keywords[i];
      assert keywords[..i + 1][..i] == keywords[..i];
      if keyword in icon.keywords || Contains(icon.name, keyword) {
        matches := matches + 1.0;
      }
      var partial := CountPartial(keyword, icon.keywords);
      matches := matches + partial;
    }
    assert keywords[..|keywords|] == keywords;
  }

  /** Lines 171-173: a half for each icon keyword that contains, or is
      contained in, the search keyword. */
  method CountPartial(keyword: string, iconKeywords: seq<string>) returns (partial: real)
    ensures partial == 0.5 * PartialCount(keyword, iconKeywords) as real
  {
    partial := 0.0;
    for j := 0 to |iconKeywords|
      invariant partial == 0.5 * PartialCount(keyword, iconKeywords[..j]) as real
    {
      var ik := iconKeywords[j];
      assert iconKeywords[..j + 1][..j] == iconKeywords[..j];
      if Contains(keyword, ik) || Contains(ik, keyword) {
        partial := partial + 0.5;
      }
    }
    assert iconKeywords[..|iconKeywords|] == iconKeywords;
  }

  /** Lines 178-180: three points per long search keyword in the icon name. */
  method CountLongBonus(keywords: seq<string>, iconName: string) returns (bonus: nat)
    ensures bonus == LongBonus(keywords, iconName)
  {
    bonus := 0;
    for i := 0 to |keywords|
      invariant bonus == LongBonus(keywords[..i], iconName)
    {
      assert keywords[..i + 1][..i] == keywords[..i];
      if |keywords[i]| > 3 && Contains(iconName, keywords[i]) {
        bonus := bonus + 3;
      }
    }
    assert keywords[..|keywords|] == keywords;
  }

  // ------------------------------------------------------- the suggestion

  /** The text `suggest_image` searches: name, description and target. */
  function SearchKeywords(name: string, description: string, targetUrl: string): seq<string>
  {
    ExtractKeywords(Lower(name + " " + description + " " + targetUrl))
  }

  /** The score of every icon, in icon order. */
  function Scores(icons: seq<Icon>, name: string, keywords: seq<string>, targetUrl: string, ratio: Ratio)
    : (r: seq<real>)
    ensures |r| == |icons|
    ensures forall k :: 0 <= k < |icons| ==> r[k] == Score(icons[k], name, keywords, targetUrl, ratio)
  {
    seq(|icons|, k requires 0 <= k < |icons| => Score(icons[k], name, keywords, targetUrl, ratio))
  }

  /** The running best of the loop at lines 130-140: the index of the first
      strictly highest positive score, and that score (0 if none is
      positive). */
  function Best(scores: seq<real>): (r: (Option<nat>, real))
    decreases |scores|
  {
    if scores == [] then (None, 0.0)
    else
      var (b, m) := Best(scores[..|scores| - 1]);
      var last := scores[|scores| - 1];
      if last > m then (Some(|scores| - 1), last) else (b, m)
  }

  /** The best is the first maximum when some score is positive, and
      nothing otherwise. */
  lemma {:induction false} BestMeaning(scores: seq<real>)
    ensures Best(scores).1 >= 0.0
    ensures forall j :: 0 <= j < |scores| ==> scores[j] <= Best(scores).1
    ensures Best(scores).0.None? ==> Best(scores).1 == 0.0
    ensures Best(scores).0.Some? ==>
              && Best(scores).0.value < |scores|
              && scores[Best(scores).0.value] == Best(scores).1 > 0.0
              && forall j :: 0 <= j < Best(scores).0.value ==> scores[j] < Best(scores).1
    decreases |scores|
  {
    if scores != [] {
      var init := scores[..|scores| - 1];
      BestMeaning(init);
      assert forall j :: 0 <= j < |init| ==> scores[j] == init[j];
    }
  }

  /** One more score handled by the running best. */
  lemma BestStep(scores: seq<real>, i: nat)
    requires i < |scores|
    ensures Best(scores[..i + 1])
         == if scores[i] > Best(scores[..i]).1 then (Some(i), scores[i]) else Best(scores[..i])
  {
    assert scores[..i + 1][..i] == scores[..i];
  }

  /** `suggest_image`: nothing without icons; otherwise the best icon if its
      score reaches 5. The connection type plays no part. */
  function Suggestion(icons: seq<Icon>, name: string, description: string, targetUrl: string, ratio: Ratio)
    : Option<string>
  {
    if icons == [] then None
    else
      var (b, m) := Best(Scores(icons, name, SearchKeywords(name, description, targetUrl), targetUrl, ratio));
      if b.Some? && b.value < |icons| && m >= 5.0 then Some(icons[b.value].filename) else None
  }

  /** The suggestion is the first icon with the highest score, and only
      when that score reaches 5; otherwise every score is below 5. */
  lemma SuggestionMeaning(icons: seq<Icon>, name: string, description: string, targetUrl: string, ratio: Ratio)
    ensures var sc := Scores(icons, name, SearchKeywords(name, description, targetUrl), targetUrl, ratio);
      match Suggestion(icons, name, description, targetUrl, ratio)
      case None => forall j :: 0 <= j < |icons| ==> sc[j] < 5.0
      case Some(f) => exists i :: 0 <= i < |icons| && icons[i].filename == f && sc[i] >= 5.0
                        && (forall j :: 0 <= j < |icons| ==> sc[j] <= sc[i])
                        && (forall j :: 0 <= j < i ==> sc[j] < sc[i])
  {
    var sc := Scores(icons, name, SearchKeywords(name, description, targetUrl), targetUrl, ratio);
    BestMeaning(sc);
  }

  /** An icon named exactly like the connection scores at least 50, so some
      icon is always suggested then. */
  lemma ExactNameSuggested(icons: seq<Icon>, name: string, description: string, targetUrl: string,
                           ratio: Ratio, i: nat)
    requires i < |icons| && icons[i].name == Lower(name)
    requires 0.0 <= ratio(Lower(name), icons[i].name) <= 1.0
    ensures Suggestion(icons, name, description, targetUrl, ratio).Some?
  {
    var kw := SearchKeywords(name, description, targetUrl);
    var sc := Scores(icons, name, kw, targetUrl, ratio);
    ScoreBounds(icons[i], name, kw, targetUrl, ratio);
    BestMeaning(sc);
    assert sc[i] >= 50.0;
  }

  /** Lines 123-143: the scoring loop keeps the first strictly higher
      score. */
  method SuggestImage(icons: seq<Icon>, connectionName: string, connectionDescription: string,
                      targetUrl: string, connectionType: string, ratio: Ratio)
    returns (r: Option<string>)
    ensures r == Suggestion(icons, connectionName, connectionDescription, targetUrl, ratio)
  {
    if icons == [] {
      return None;
    }
    var keywords := SearchKeywords(connectionName, connectionDescription, targetUrl);
    ghost var sc := Scores(icons, connectionName, keywords, targetUrl, ratio);
    assert |sc| == |icons|;
    var bestMatch: Option<string> := None;
    var bestScore := 0.0;
    ghost var bestIndex: Option<nat> := None;
    for i := 0 to |icons|
      invariant (bestIndex, bestScore) == Best(sc[..i])
      invariant bestIndex.None? ==> bestMatch.None?
      invariant bestIndex.Some? ==> bestIndex.value < i && bestMatch == Some(icons[bestIndex.value].filename)
    {
      var score := MatchScore(icons[i], connectionName, keywords, targetUrl, ratio);
      BestStep(sc, i);
      assert sc[i] == score;
      if score > bestScore {
        bestScore := score;
        bestMatch := Some(icons[i].filename);
        bestIndex := Some(i);
      }
    }
    assert sc[..|icons|] == sc;
    r := if bestScore >= 5.0 then bestMatch else None;
    assert Best(sc) == (bestIndex, bestScore);
  }

  // ------------------------------------------------------------ the search

  const DefaultSearchLimit: int := 20

  /** The search keyword count of an icon. */
  function HitCount(keywords: seq<string>, icon: Icon): (r: nat)
    ensures r <= |keywords|
    decreases |keywords|
  {
    if keywords == [] then 0
    else HitCount(keywords[..|keywords| - 1], icon) + (if KeywordHit(keywords[|keywords| - 1], icon) then 1 else 0)
  }

  /** Lines 258-267: 10 when the whole lowered query is in the icon name,
      plus 5 per query keyword hit. */
  function SearchScore(icon: Icon, queryLower: string, queryKeywords: seq<string>): (r: int)
    ensures r >= 0
    ensures r > 0 <==> Contains(icon.name, queryLower) || HitCount(queryKeywords, icon) > 0
  {
    (if Contains(icon.name, queryLower) then 10 else 0) + 5 * HitCount(queryKeywords, icon)
  }

  /** The icons with a positive score, with that score, in icon order. */
  function Matches(icons: seq<Icon>, query: string): (r: seq<(string, int)>)
    ensures |r| <= |icons|
    ensures forall k :: 0 <= k < |r| ==> r[k].1 > 0
    decreases |icons|
  {
    if icons == [] then []
    else
      var icon := icons[|icons| - 1];
      var score := IconScore(icon, query);
      Matches(icons[..|icons| - 1], query) + (if score > 0 then [(icon.filename, score)] else [])
  }

  /** A match is an icon with its positive score, and every icon with a
      positive score is a match. */
  lemma MatchesMembers(icons: seq<Icon>, query: string)
    ensures forall m :: m in Matches(icons, query) ==>
              exists i :: 0 <= i < |icons| && m == (icons[i].filename, IconScore(icons[i], query))
    ensures forall i :: 0 <= i < |icons| && IconScore(icons[i], query) > 0 ==>
              (icons[i].filename, IconScore(icons[i], query)) in Matches(icons, query)
  {
    forall m | m in Matches(icons, query)
      ensures exists i :: 0 <= i < |icons| && m == (icons[i].filename, IconScore(icons[i], query))
    {
      var i := MatchSource(icons, query, m);
    }
    forall i | 0 <= i < |icons| && IconScore(icons[i], query) > 0
      ensures (icons[i].filename, IconScore(icons[i], query)) in Matches(icons, query)
    {
      MatchFound(icons, query, i);
    }
  }

  lemma {:induction false} MatchSource(icons: seq<Icon>, query: string, m: (string, int)) returns (i: nat)
    requires m in Matches(icons, query)
    ensures i < |icons| && m == (icons[i].filename, IconScore(icons[i], query))
    decreases |icons|
  {
    var init := icons[..|icons| - 1];
    var last := icons[|icons| - 1];
    if m in Matches(init, query) {
      i := MatchSource(init, query, m);
      assert icons[i] == init[i];
    } else {
      assert IconScore(last, query) > 0 && m == (last.filename, IconScore(last, query));
      i := |icons| - 1;
    }
  }

  lemma {:induction false} MatchFound(icons: seq<Icon>, query: string, i: nat)
    requires i < |icons| && IconScore(icons[i], query) > 0
    ensures (icons[i].filename, IconScore(icons[i], query)) in Matches(icons, query)
    decreases |icons|
  {
    var init := icons[..|icons| - 1];
    if i < |init| {
      assert icons[i] == init[i];
      MatchFound(init, query, i);
    }
  }

  /** The search score of an icon for a raw query. */
  function IconScore(icon: Icon, query: string): int
  {
    SearchScore(icon, Lower(query), ExtractKeywords(query))
  }

  predicate SortedDesc(s: seq<(string, int)>)
  {
    forall i, j :: 0 <= i < j < |s| ==> s[i].1 >= s[j].1
  }

  /** Placing a match before the first one whose score is not higher. */
  function InsertDesc(x: (string, int), s: seq<(string, int)>): (r: seq<(string, int)>)
    ensures |r| == |s| + 1
    ensures multiset(r) == multiset(s) + multiset{x}
    ensures r[0] == x || (s != [] && r[0] == s[0])
    decreases |s|
  {
    if s == [] || s[0].1 <= x.1 then [x] + s
    else
      assert s == [s[0]] + s[1..];
      [s[0]] + InsertDesc(x, s[1..])
  }

  /** `matches.sort(key=score, reverse=True)`: a stable sort, highest score
      first. */
  function SortDesc(s: seq<(string, int)>): (r: seq<(string, int)>)
    ensures |r| == |s|
    ensures multiset(r) == multiset(s)
    decreases |s|
  {
    if s == [] then []
    else
      assert s == [s[0]] + s[1..];
      InsertDesc(s[0], SortDesc(s[1..]))
  }

  lemma {:induction false} InsertDescSorted(x: (string, int), s: seq<(string, int)>)
    requires SortedDesc(s)
    ensures SortedDesc(InsertDesc(x, s))
    decreases |s|
  {
    if s == [] || s[0].1 <= x.1 {
      var r := [x] + s;
      forall i, j | 0 <= i < j < |r|
        ensures r[i].1 >= r[j].1
      {
        if i > 0 {
          assert r[i] == s[i - 1] && r[j] == s[j - 1];
        } else {
          assert r[j] == s[j - 1] && s[0].1 >= s[j - 1].1;
        }
      }
    } else {
      var t := InsertDesc(x, s[1..]);
      InsertDescSorted(x, s[1..]);
      assert s[0].1 >= t[0].1;
      var r := [s[0]] + t;
      forall i, j | 0 <= i < j < |r|
        ensures r[i].1 >= r[j].1
      {
        if i > 0 {
          assert r[i] == t[i - 1] && r[j] == t[j - 1];
        } else {
          assert r[j] == t[j - 1] && t[0].1 >= t[j - 1].1;
        }
      }
    }
  }

  /** The matches with score `v`, in order. */
  function WithScore(s: seq<(string, int)>, v: int): seq<(string, int)>
    decreases |s|
  {
    if s == [] then [] else (if s[0].1 == v then [s[0]] else []) + WithScore(s[1..], v)
  }

  lemma {:induction false} InsertDescWithScore(x: (string, int), s: seq<(string, int)>, v: int)
    requires SortedDesc(s)
    ensures WithScore(InsertDesc(x, s), v) == (if x.1 == v then [x] else []) + WithScore(s, v)
    decreases |s|
  {
    if s == [] || s[0].1 <= x.1 {
      var r := [x] + s;
      assert r[1..] == s;
    } else {
      InsertDescWithScore(x, s[1..], v);
      if x.1 == v {
        assert s[0].1 != v;
        AboveHasNone(s, v);
      }
    }
  }

  /** A head scoring above `v` is not among the matches of score `v`. */
  lemma {:induction false} AboveHasNone(s: seq<(string, int)>, v: int)
    requires SortedDesc(s) && s != [] && s[0].1 > v
    ensures WithScore(s, v) == WithScore(s[1..], v)
  {
  }

  /** The sort is sorted, and stable: the matches of each score keep their
      original order. */
  lemma {:induction false} SortDescMeaning(s: seq<(string, int)>)
    ensures SortedDesc(SortDesc(s))
    ensures forall v :: WithScore(SortDesc(s), v) == WithScore(s, v)
    decreases |s|
  {
    if s != [] {
      SortDescMeaning(s[1..]);
      InsertDescSorted(s[0], SortDesc(s[1..]));
      forall v
        ensures WithScore(SortDesc(s), v) == WithScore(s, v)
      {
        InsertDescWithScore(s[0], SortDesc(s[1..]), v);
      }
    }
  }

  /** Python's `s[:limit]`: a negative limit counts from the end. */
  function Head<T>(s: seq<T>, limit: int): (r: seq<T>)
    ensures limit >= 0 ==> |r| == if limit < |s| then limit else |s|
    ensures limit < 0 ==> |r| == if -limit < |s| then |s| + limit else 0
    ensures r == s[..|r|]
  {
    if limit >= 0 then (if limit < |s| then s[..limit] else s)
    else if -limit < |s| then s[..|s| + limit]
    else []
  }

  function Filenames(ms: seq<(string, int)>): (r: seq<string>)
    ensures |r| == |ms|
    ensures forall k :: 0 <= k < |ms| ==> r[k] == ms[k].0
  {
    seq(|ms|, k requires 0 <= k < |ms| => ms[k].0)
  }

  /** `search_icons`. */
  function SearchResult(icons: seq<Icon>, query: string, limit: int): seq<string>
  {
    if query == "" || icons == [] then []
    else Filenames(Head(SortDesc(Matches(icons, query)), limit))
  }

  /** The search returns at most `limit` names of icons matching the query,
      highest score first; a name is left out only when all returned names
      score at least as much or the limit cut it. */
  lemma SearchResultMeaning(icons: seq<Icon>, query: string, limit: int)
    requires query != "" && icons != []
    ensures var sorted := SortDesc(Matches(icons, query));
      && SortedDesc(sorted)
      && multiset(sorted) == multiset(Matches(icons, query))
      && SearchResult(icons, query, limit) == Filenames(Head(sorted, limit))
    ensures limit >= 0 ==> |SearchResult(icons, query, limit)| <= limit
    ensures limit >= |icons| ==> |SearchResult(icons, query, limit)| == |Matches(icons, query)|
  {
    SortDescMeaning(Matches(icons, query));
  }

  /** Lines 250-274: the scoring loop appends each positive match, then the
      list is sorted and cut. */
  method SearchIcons(icons: seq<Icon>, query: string, limit: int) returns (r: seq<string>)
    ensures r == SearchResult(icons, query, limit)
  {
    if query == "" || icons == [] {
      return [];
    }
    var queryLower := Lower(query);
    var queryKeywords := ExtractKeywords(query);
    var matches: seq<(string, int)> := [];
    for i := 0 to |icons|
      invariant matches == Matches(icons[..i], query)
    {
      var icon := icons[i];
      assert icons[..i + 1][..i] == icons[..i];
      var score := QueryScore(icon, queryLower, queryKeywords);
      if score > 0 {
        matches := matches + [(icon.filename, score)];
      }
    }
    assert icons[..|icons|] == icons;
    r := Filenames(Head(SortDesc(matches), limit));
  }

  /** Lines 258-267 for one icon: the whole-query bonus, then 5 per query
      keyword hit. */
  method QueryScore(icon: Icon, queryLower: string, queryKeywords: seq<string>) returns (score: int)
    ensures score == SearchScore(icon, queryLower, queryKeywords)
  {
    score := 0;
    if Contains(icon.name, queryLower) {
      score := score + 10;
    }
    for j := 0 to |queryKeywords|
      invariant score == (if Contains(icon.name, queryLower) then 10 else 0) + 5 * HitCount(queryKeywords[..j], icon)
    {
      assert queryKeywords[..j + 1][..j] == queryKeywords[..j];
      var keyword := queryKeywords[j];
      if keyword in icon.keywords || Contains(icon.name, keyword) {
        score := score + 5;
      }
    }
    assert queryKeywords[..|queryKeywords|] == queryKeywords;
  }

  // --------------------------------------------------------------- copying

  /** `copy_icon_to_connections`: nothing for an empty or unknown name, a
      missing source file or a failed copy; otherwise the copy is named with the
      timestamp prefix of `Stamped`. */
  function CopyName(icons: seq<Icon>, iconFilename: string, sourceExists: bool, now: nat, copied: bool)
    : (r: Option<string>)
    ensures r.Some? ==> exists i :: 0 <= i < |icons| && icons[i].filename == iconFilename
    ensures r.Some? <==> iconFilename != "" && iconFilename in IconFilenames(icons) && sourceExists && copied
  {
    if iconFilename == "" || iconFilename !in IconFilenames(icons) then None
    else if !sourceExists || !copied then None
    else Some(Stamped(now, iconFilename))
  }

  /** `[i['filename'] for i in self.available_icons]`. */
  function IconFilenames(icons: seq<Icon>): (r: seq<string>)
    ensures |r| == |icons|
    ensures forall k :: 0 <= k < |icons| ==> r[k] == icons[k].filename
  {
    seq(|icons|, k requires 0 <= k < |icons| => icons[k].filename)
  }

  /** The copy's name gives back the timestamp and the original name. */
  lemma CopyNameRoundTrip(icons: seq<Icon>, iconFilename: string, sourceExists: bool, now: nat, copied: bool)
    requires CopyName(icons, iconFilename, sourceExists, now, copied).Some?
    ensures var n := CopyName(icons, iconFilename, sourceExists, now, copied).value;
      && n[IndexOf(n, '_').value + 1..] == iconFilename
      && DigitsValue(n[..IndexOf(n, '_').value]) == now
  {
    StampedRoundTrip(now, iconFilename);
  }
}
