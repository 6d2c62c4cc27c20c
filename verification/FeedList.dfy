/** The feed list codec: splitting at commas that introduce another absolute URL, the optional "|username"
    suffix, and exactly which lists survive being rendered and parsed again. */
module FeedList {
  import opened Wrappers
  import opened Text

  // ----- where a comma separates -----

  predicate IsLetter(c: char) {
    'A' <= c <= 'Z' || 'a' <= c <= 'z'
  }

  predicate IsSchemeChar(c: char) {
    IsLetter(c) || '0' <= c <= '9' || c == '+' || c == '.' || c == '-'
  }

  predicate SchemeRest(s: string)
    decreases |s|
  {
    s != "" && (s[0] == ':' || (IsSchemeChar(s[0]) && SchemeRest(s[1..])))
  }

  /** A letter, then scheme characters, then a colon. */
  predicate HasScheme(s: string) {
    s != "" && IsLetter(s[0]) && SchemeRest(s[1..])
  }

  /** A scheme is exactly a letter and scheme characters before a colon. */
  lemma {:induction false} SchemeRestMeans(s: string)
    ensures SchemeRest(s) <==>
              exists k :: 0 <= k < |s| && s[k] == ':' && forall i :: 0 <= i < k ==> IsSchemeChar(s[i])
    decreases |s|
  {
    if s != "" {
      SchemeRestMeans(s[1..]);
      if s[0] != ':' && SchemeRest(s) {
        var k :| 0 <= k < |s[1..]| && s[1..][k] == ':' && forall i :: 0 <= i < k ==> IsSchemeChar(s[1..][i]);
        assert forall i :: 0 < i < k + 1 ==> s[i] == s[1..][i - 1];
        assert s[k + 1] == ':';
      }
      if k :| 0 < k < |s| && s[k] == ':' && forall i :: 0 <= i < k ==> IsSchemeChar(s[i]) {
        assert s[1..][k - 1] == ':' && forall i :: 0 <= i < k - 1 ==> s[1..][i] == s[i + 1];
      }
    }
  }

  lemma HasSchemeMeans(s: string)
    ensures HasScheme(s) <==>
              && s != "" && IsLetter(s[0])
              && exists k :: 1 <= k < |s| && s[k] == ':' && forall i :: 1 <= i < k ==> IsSchemeChar(s[i])
  {
    if s != "" {
      var rest := s[1..];
      SchemeRestMeans(rest);
      if SchemeRest(rest) {
        var k :| 0 <= k < |rest| && rest[k] == ':' && forall i :: 0 <= i < k ==> IsSchemeChar(rest[i]);
        assert s[k + 1] == ':' && forall i :: 1 <= i < k + 1 ==> s[i] == rest[i - 1];
      }
      if k :| 1 <= k < |s| && s[k] == ':' && forall i :: 1 <= i < k ==> IsSchemeChar(s[i]) {
        assert rest[k - 1] == ':' && forall i :: 0 <= i < k - 1 ==> rest[i] == s[i + 1];
      }
    }
  }

  /** What may stand right of a separating comma. */
  predicate StartsEntry(trimmed: string) {
    trimmed == "" || trimmed[0] == ',' || HasScheme(trimmed)
  }

  /** The first character of `v` is a separating comma. */
  predicate SeparatesHere(v: string) {
    v != "" && v[0] == ',' && StartsEntry(Trim(v[1..]))
  }

  // ----- splitting and joining -----

  function Split(v: string): (parts: seq<string>)
    ensures parts != []
    decreases |v|
  {
    if v == "" then [""]
    else if SeparatesHere(v) then [""] + Split(v[1..])
    else Prepend([v[0]], Split(v[1..]))
  }

  /** `s` glued to the first part. */
  function Prepend(s: string, parts: seq<string>): (r: seq<string>)
    requires parts != []
    ensures |r| == |parts|
  {
    parts[0 := s + parts[0]]
  }

  function JoinComma(parts: seq<string>): string
    decreases |parts|
  {
    if parts == [] then ""
    else if |parts| == 1 then parts[0]
    else parts[0] + "," + JoinComma(parts[1..])
  }

  lemma PrependNothing(parts: seq<string>)
    requires parts != []
    ensures Prepend("", parts) == parts
  {
    assert "" + parts[0] == parts[0];
  }

  lemma PrependTwice(s: string, c: char, parts: seq<string>)
    requires parts != []
    ensures Prepend(s, Prepend([c], parts)) == Prepend(s + [c], parts)
  {
    assert s + ([c] + parts[0]) == (s + [c]) + parts[0];
  }

  lemma PartGoesOn(v: string, start: nat, i: nat)
    requires start <= i < |v| && !SeparatesHere(v[i..])
    ensures Prepend(v[start..i], Split(v[i..])) == Prepend(v[start..i + 1], Split(v[i + 1..]))
  {
    assert v[i..][1..] == v[i + 1..];
    PrependTwice(v[start..i], v[i], Split(v[i + 1..]));
    assert v[start..i] + [v[i]] == v[start..i + 1];
  }

  lemma PartEnds(v: string, start: nat, i: nat)
    requires start <= i < |v| && SeparatesHere(v[i..])
    ensures Prepend(v[start..i], Split(v[i..])) == [v[start..i]] + Prepend(v[i + 1..i + 1], Split(v[i + 1..]))
  {
    assert v[i..][1..] == v[i + 1..];
    assert v[start..i] + "" == v[start..i] && v[i + 1..i + 1] == "";
    PrependNothing(Split(v[i + 1..]));
  }

  lemma SeparatesAt(v: string, i: nat, remainder: string)
    requires i < |v| && remainder == Trim(v[i + 1..])
    ensures SeparatesHere(v[i..]) <==> v[i] == ',' && (remainder == "" || remainder[0] == ',' || HasScheme(remainder))
  {
    assert v[i..][1..] == v[i + 1..];
  }

  method SplitCallbackList(v: string) returns (parts: seq<string>)
    ensures parts == Split(v)
  {
    parts := [];
    var start := 0;
    assert v[0..] == v;
    PrependNothing(Split(v));
    for i := 0 to |v|
      invariant 0 <= start <= i
      invariant parts + Prepend(v[start..i], Split(v[i..])) == Split(v)
    {
      var remainder := Trim(v[i + 1..]);
      SeparatesAt(v, i, remainder);
      if v[i] != ',' {
        PartGoesOn(v, start, i);
        continue;
      }
      if remainder == "" || remainder[0] == ',' || HasScheme(remainder) {
        PartEnds(v, start, i);
        parts := parts + [v[start..i]];
        start := i + 1;
      } else {
        PartGoesOn(v, start, i);
      }
    }
    assert v[|v|..] == "" && v[start..|v|] + "" == v[start..];
    parts := parts + [v[start..]];
  }

  /** Splitting loses nothing: joining the parts with commas gives every value back. */
  lemma {:induction false} JoinOfSplit(v: string)
    ensures JoinComma(Split(v)) == v
    decreases |v|
  {
    if v != "" {
      JoinOfSplit(v[1..]);
      var rest := Split(v[1..]);
      if SeparatesHere(v) {
        assert Split(v)[1..] == rest;
        assert v == "" + "," + v[1..];
      } else {
        assert Split(v)[1..] == rest[1..];
        assert v == [v[0]] + v[1..];
      }
    }
  }

  // ----- a separator is recognised without looking past the next comma -----

  lemma {:induction false} SchemeRestAppend(s: string, t: string)
    requires t != "" ==> t[0] != ':' && !IsSchemeChar(t[0])
    ensures SchemeRest(s + t) <==> SchemeRest(s)
    decreases |s|
  {
    if s == "" {
      assert s + t == t;
    } else {
      assert (s + t)[1..] == s[1..] + t;
      SchemeRestAppend(s[1..], t);
    }
  }

  lemma HasSchemeAppend(s: string, t: string)
    requires t != "" ==> t[0] != ':' && !IsSchemeChar(t[0])
    ensures HasScheme(s + t) <==> HasScheme(s)
  {
    if s == "" {
      assert s + t == t;
    } else {
      assert (s + t)[1..] == s[1..] + t;
      SchemeRestAppend(s[1..], t);
    }
  }

  lemma StartsEntryTrimRight(x: string)
    requires x == "" || !IsSpace(x[0])
    ensures StartsEntry(TrimRight(x)) <==> StartsEntry(x)
  {
    TrimRightFacts(x);
    var r := TrimRight(x);
    var blanks := x[|r|..];
    assert x == r + blanks;
    HasSchemeAppend(r, blanks);
  }

  lemma {:induction false} TrimLeftAppend(x: string, t: string)
    ensures TrimLeft(x + t) == if TrimLeft(x) == "" then TrimLeft(t) else TrimLeft(x) + t
    decreases |x|
  {
    if x == "" {
      assert x + t == t;
    } else if IsSpace(x[0]) {
      assert (x + t)[1..] == x[1..] + t;
      TrimLeftAppend(x[1..], t);
    }
  }

  lemma StartsEntryTrim(x: string)
    ensures StartsEntry(Trim(x)) <==> StartsEntry(TrimLeft(x))
  {
    TrimLeftFacts(x);
    StartsEntryTrimRight(TrimLeft(x));
  }

  /** The text from the next comma on cannot turn a remainder into an entry or back. */
  lemma StartsEntryAppend(x: string, t: string)
    requires t == "" || t[0] == ','
    ensures StartsEntry(Trim(x + t)) <==> StartsEntry(Trim(x))
  {
    TrimLeftAppend(x, t);
    StartsEntryTrim(x);
    StartsEntryTrim(x + t);
    if TrimLeft(x) != "" { HasSchemeAppend(TrimLeft(x), t); }
  }

  lemma SeparatesHereAppend(e: string, t: string)
    requires e != "" && (t == "" || t[0] == ',')
    ensures SeparatesHere(e + t) <==> SeparatesHere(e)
  {
    assert (e + t)[1..] == e[1..] + t;
    StartsEntryAppend(e[1..], t);
  }

  // ----- which lists of entries survive join and split -----

  predicate NoInnerSeparator(e: string)
    decreases |e|
  {
    e == "" || (!SeparatesHere(e) && NoInnerSeparator(e[1..]))
  }

  /** Each entry holds no separating comma, and each but the first starts like an entry. */
  ghost predicate Separable(es: seq<string>) {
    && (forall k :: 0 <= k < |es| ==> NoInnerSeparator(es[k]))
    && (forall k :: 1 <= k < |es| ==> StartsEntry(Trim(es[k])))
  }

  lemma SplitStep(v: string)
    requires v != ""
    ensures Split(v) == if SeparatesHere(v) then [""] + Split(v[1..]) else Prepend([v[0]], Split(v[1..]))
  {
  }

  lemma PrependBoth(e: string, parts: seq<string>)
    requires e != "" && parts != []
    ensures Prepend([e[0]], Prepend(e[1..], parts)) == Prepend(e, parts)
  {
    assert [e[0]] + (e[1..] + parts[0]) == e + parts[0];
  }

  /** An entry without an inner separator stays in one piece, whatever follows its closing comma. */
  lemma {:induction false} EntryStaysWhole(e: string, t: string)
    requires NoInnerSeparator(e) && (t == "" || t[0] == ',')
    ensures Split(e + t) == Prepend(e, Split(t))
    decreases |e|
  {
    if e == "" {
      assert e + t == t;
      PrependNothing(Split(t));
    } else {
      assert (e + t)[1..] == e[1..] + t;
      SeparatesHereAppend(e, t);
      EntryStaysWhole(e[1..], t);
      SplitStep(e + t);
      PrependBoth(e, Split(t));
    }
  }

  /** Conversely, a first part as long as the entry means the entry holds no separator. */
  lemma {:induction false} WholeMeansNoInnerSeparator(e: string, t: string)
    requires (t == "" || t[0] == ',') && |Split(e + t)[0]| >= |e|
    ensures NoInnerSeparator(e)
    decreases |e|
  {
    if e != "" {
      assert (e + t)[1..] == e[1..] + t;
      SeparatesHereAppend(e, t);
      WholeMeansNoInnerSeparator(e[1..], t);
    }
  }

  /** The text after the first entry. */
  function AfterFirst(es: seq<string>): (t: string)
    requires es != []
    ensures t == "" || t[0] == ','
    ensures JoinComma(es) == es[0] + t
  {
    if |es| == 1 then "" else "," + JoinComma(es[1..])
  }

  lemma JointSeparates(es: seq<string>)
    requires |es| > 1
    ensures SeparatesHere(AfterFirst(es)) <==> StartsEntry(Trim(es[1]))
    ensures AfterFirst(es)[1..] == JoinComma(es[1..])
  {
    StartsEntryAppend(es[1], AfterFirst(es[1..]));
  }

  lemma {:induction false} SeparableSplits(es: seq<string>)
    requires es != [] && Separable(es)
    ensures Split(JoinComma(es)) == es
    decreases |es|
  {
    var t := AfterFirst(es);
    EntryStaysWhole(es[0], t);
    assert es[0] + "" == es[0];
    if |es| > 1 {
      JointSeparates(es);
      SeparableSplits(es[1..]);
      assert Split(t) == [""] + es[1..];
    }
  }

  lemma {:induction false} SplitMeansSeparable(es: seq<string>)
    requires es != [] && Split(JoinComma(es)) == es
    ensures Separable(es)
    decreases |es|
  {
    var t := AfterFirst(es);
    WholeMeansNoInnerSeparator(es[0], t);
    EntryStaysWhole(es[0], t);
    if |es| > 1 {
      JointSeparates(es);
      assert Split(t)[1..] == es[1..];
      assert Split(t)[0] == "" by { assert es[0] + Split(t)[0] == es[0]; }
      SplitMeansSeparable(es[1..]);
      forall j | 1 <= j < |es| ensures NoInnerSeparator(es[j]) && StartsEntry(Trim(es[j])) {
        assert es[j] == es[1..][j - 1];
      }
    }
  }

  // ----- the "|username" suffix -----

  datatype Feed = Feed(url: string, username: Option<string>)

  function ParseEntry(part: string): Feed {
    var entry := Trim(part);
    var idx := IndexOf(entry, '|');
    if idx >= 0 then
      var username := Trim(entry[idx + 1..]);
      Feed(Trim(entry[..idx]), if username != "" then Some(username) else None)
    else Feed(entry, None)
  }

  function RenderEntry(f: Feed): string {
    if f.username.Some? && f.username.value != "" then f.url + "|" + f.username.value else f.url
  }

  function ParseParts(parts: seq<string>): (fs: seq<Feed>)
    ensures |fs| == |parts|
  {
    seq(|parts|, i requires 0 <= i < |parts| => ParseEntry(parts[i]))
  }

  function Rendered(fs: seq<Feed>): (es: seq<string>)
    ensures |es| == |fs|
  {
    seq(|fs|, i requires 0 <= i < |fs| => RenderEntry(fs[i]))
  }

  function SplitFeeds(v: string): seq<Feed> {
    if v == "" then [] else ParseParts(Split(v))
  }

  function JoinFeeds(fs: seq<Feed>): string {
    JoinComma(Rendered(fs))
  }

  function Zip(urls: seq<string>, usernames: seq<Option<string>>): (fs: seq<Feed>)
    requires |urls| == |usernames|
    ensures |fs| == |urls|
  {
    seq(|urls|, i requires 0 <= i < |urls| => Feed(urls[i], usernames[i]))
  }

  method SplitEntry(part: string) returns (url: string, name: Option<string>)
    ensures Feed(url, name) == ParseEntry(part)
  {
    var entry := Trim(part);
    var idx := IndexOf(entry, '|');
    url, name := entry, None;
    if idx >= 0 {
      url := Trim(entry[..idx]);
      var username := Trim(entry[idx + 1..]);
      if username != "" { name := Some(username); }
    }
  }

  /** The first lists are the fields of the parsed entries so far. */
  predicate FieldsOf(fs: seq<Feed>, urls: seq<string>, usernames: seq<Option<string>>) {
    |urls| == |usernames| <= |fs| && forall k :: 0 <= k < |urls| ==> Feed(urls[k], usernames[k]) == fs[k]
  }

  lemma FieldsOfAll(fs: seq<Feed>, urls: seq<string>, usernames: seq<Option<string>>)
    requires FieldsOf(fs, urls, usernames) && |urls| == |fs|
    ensures Zip(urls, usernames) == fs
  {
  }

  /** Two parallel lists, filled entry by entry. */
  method SplitRSSFeedURLs(v: string) returns (urls: seq<string>, usernames: seq<Option<string>>)
    ensures |urls| == |usernames| && Zip(urls, usernames) == SplitFeeds(v)
  {
    urls, usernames := [], [];
    if v == "" { return; }
    var parts := SplitCallbackList(v);
    ghost var feeds := ParseParts(parts);
    for i := 0 to |parts|
      invariant |urls| == i && FieldsOf(feeds, urls, usernames)
    {
      var url, name := SplitEntry(parts[i]);
      assert Feed(url, name) == feeds[i];
      urls, usernames := urls + [url], usernames + [name];
    }
    FieldsOfAll(feeds, urls, usernames);
  }

  method JoinRSSFeedURLs(urls: seq<string>, usernames: seq<Option<string>>) returns (value: string)
    requires |urls| == |usernames|
    ensures value == JoinFeeds(Zip(urls, usernames))
  {
    var entries: seq<string> := [];
    for i := 0 to |urls|
      invariant |entries| == i && entries == Rendered(Zip(urls, usernames))[..i]
    {
      if usernames[i].Some? && usernames[i].value != "" {
        entries := entries + [urls[i] + "|" + usernames[i].value];
      } else {
        entries := entries + [urls[i]];
      }
    }
    assert entries == Rendered(Zip(urls, usernames));
    value := JoinComma(entries);
  }

  // ----- exactly which feed lists round-trip -----

  /** A feed whose two fields are recovered from its own rendered entry. */
  predicate Recoverable(f: Feed) {
    && Trimmed(f.url) && '|' !in f.url
    && (f.username.Some? ==> f.username.value != "" && Trimmed(f.username.value))
  }

  lemma RecoverableParsesBack(f: Feed)
    requires Recoverable(f)
    ensures ParseEntry(RenderEntry(f)) == f
  {
    TrimFixesExactlyTrimmed(f.url);
    if f.username.Some? {
      var name := f.username.value;
      var e := f.url + "|" + name;
      assert e[0] == (if f.url == "" then '|' else f.url[0]) && e[|e| - 1] == name[|name| - 1];
      TrimFixesExactlyTrimmed(name);
      TrimFixesExactlyTrimmed(e);
      IndexOfFirst(f.url, '|', name);
      assert e[..|f.url|] == f.url && e[|f.url| + 1..] == name;
    } else {
      IndexOfAbsent(f.url, '|');
    }
  }

  /** Parsing never lengthens: only the rendered entry itself is as short as what it parses to. */
  lemma ParsedIsNoLonger(part: string, f: Feed)
    requires ParseEntry(part) == f
    ensures |RenderEntry(f)| <= |part|
    ensures Recoverable(f)
    ensures |RenderEntry(f)| == |part| ==> part == RenderEntry(f)
  {
    var entry := Trim(part);
    TrimShortens(part);
    IndexOfFacts(entry, '|');
    var idx := IndexOf(entry, '|');
    if idx >= 0 {
      var before, after := entry[..idx], entry[idx + 1..];
      TrimShortens(before);
      TrimKeepsOut(before, '|');
      TrimShortens(after);
      assert entry == before + "|" + after;
    }
  }

  lemma {:induction false} NoShorterPartsOfEqualTotal(ps: seq<string>, es: seq<string>)
    requires |ps| == |es| && forall k :: 0 <= k < |es| ==> |es[k]| <= |ps[k]|
    ensures |JoinComma(es)| <= |JoinComma(ps)|
    ensures |JoinComma(es)| == |JoinComma(ps)| ==> forall k :: 0 <= k < |es| ==> |es[k]| == |ps[k]|
    decreases |ps|
  {
    if |ps| > 1 {
      NoShorterPartsOfEqualTotal(ps[1..], es[1..]);
      if |JoinComma(es)| == |JoinComma(ps)| {
        forall k | 0 <= k < |es| ensures |es[k]| == |ps[k]| {
          if k > 0 { assert es[k] == es[1..][k - 1] && ps[k] == ps[1..][k - 1]; }
        }
      }
    }
  }

  ghost predicate Survives(fs: seq<Feed>) {
    fs == [] ||
    (JoinFeeds(fs) != "" && (forall k :: 0 <= k < |fs| ==> Recoverable(fs[k])) && Separable(Rendered(fs)))
  }

  /** Rendering a feed list and parsing the result gives the list back exactly when it survives: every URL
      trimmed and without '|', every username non-empty and trimmed, no separating comma inside an entry, every
      entry after the first starting like one, and not the one blank entry that renders to nothing. */
  lemma RoundTripExactly(fs: seq<Feed>)
    ensures SplitFeeds(JoinFeeds(fs)) == fs <==> Survives(fs)
  {
    if Survives(fs) && fs != [] {
      SeparableSplits(Rendered(fs));
      forall k | 0 <= k < |fs| ensures ParseEntry(Rendered(fs)[k]) == fs[k] {
        RecoverableParsesBack(fs[k]);
      }
      assert SplitFeeds(JoinFeeds(fs)) == fs;
    }
    if SplitFeeds(JoinFeeds(fs)) == fs && fs != [] {
      RoundTripMeansSurvives(fs);
    }
  }

  lemma RoundTripMeansSurvives(fs: seq<Feed>)
    requires fs != [] && SplitFeeds(JoinFeeds(fs)) == fs
    ensures Survives(fs)
  {
    var v := JoinFeeds(fs);
    var ps, es := Split(v), Rendered(fs);
    JoinOfSplit(v);
    forall k | 0 <= k < |fs|
      ensures Recoverable(fs[k]) && |es[k]| <= |ps[k]| && (|es[k]| == |ps[k]| ==> ps[k] == es[k])
    {
      assert ParseEntry(ps[k]) == ParseParts(ps)[k] == fs[k];
      ParsedIsNoLonger(ps[k], fs[k]);
    }
    NoShorterPartsOfEqualTotal(ps, es);
    assert ps == es;
    SplitMeansSeparable(es);
  }

  // ----- the lists the settings screen writes -----

  predicate IsUsername(s: string) {
    s != "" && forall i :: 0 <= i < |s| ==> IsLetter(s[i]) || '0' <= s[i] <= '9' || s[i] == '_'
  }

  predicate PlainFeed(f: Feed) {
    && Trimmed(f.url) && HasScheme(f.url) && '|' !in f.url && NoInnerSeparator(f.url)
    && (f.username.Some? ==> IsUsername(f.username.value))
  }

  lemma {:induction false} SuffixAddsNoSeparator(u: string, name: string)
    requires NoInnerSeparator(u) && ',' !in name
    ensures NoInnerSeparator(u + "|" + name)
    decreases |u|
  {
    var t := "|" + name;
    assert u + "|" + name == u + t;
    if u == "" {
      assert u + t == t && t[1..] == name;
      NoCommaNoSeparator(name);
    } else {
      assert (u + t)[1..] == u[1..] + "|" + name;
      SuffixAddsNoSeparator(u[1..], name);
      if u[0] == ',' {
        PipeStartsNothing(u[1..], t);
        assert u[1..] + t == u[1..] + "|" + name;
      }
      assert !SeparatesHere(u + t);
    }
  }

  lemma {:induction false} NoCommaNoSeparator(s: string)
    requires ',' !in s
    ensures NoInnerSeparator(s)
    decreases |s|
  {
    if s != "" {
      assert s[0] in s;
      NoCommaNoSeparator(s[1..]);
    }
  }

  lemma PipeStartsNothing(x: string, t: string)
    requires t != "" && t[0] == '|' && !StartsEntry(Trim(x))
    ensures !StartsEntry(Trim(x + t))
  {
    StartsEntryTrim(x);
    StartsEntryTrim(x + t);
    TrimLeftAppend(x, t);
    HasSchemeAppend(TrimLeft(x), t);
  }

  lemma PlainFeedEntry(f: Feed)
    requires PlainFeed(f)
    ensures Recoverable(f) && NoInnerSeparator(RenderEntry(f)) && StartsEntry(Trim(RenderEntry(f)))
  {
    var e := RenderEntry(f);
    if f.username.Some? {
      var name := f.username.value;
      SuffixAddsNoSeparator(f.url, name);
      HasSchemeAppend(f.url, "|" + name);
      assert e == f.url + ("|" + name);
      assert e[0] == f.url[0] && e[|e| - 1] == name[|name| - 1];
    }
    TrimFixesExactlyTrimmed(e);
  }

  lemma PlainFeedsSurvive(fs: seq<Feed>)
    requires fs != [] && forall k :: 0 <= k < |fs| ==> PlainFeed(fs[k])
    ensures Survives(fs)
  {
    var es := Rendered(fs);
    forall k | 0 <= k < |fs| ensures Recoverable(fs[k]) && NoInnerSeparator(es[k]) && StartsEntry(Trim(es[k])) {
      PlainFeedEntry(fs[k]);
    }
    assert PlainFeed(fs[0]) && fs[0].url != "";
    assert JoinFeeds(fs) == es[0] + AfterFirst(es);
  }

  /** Every list of trimmed absolute URLs without '|' and without a separating comma of their own, each with a
      valid username or none, is recovered from its rendered form. */
  lemma PlainFeedsRoundTrip(fs: seq<Feed>)
    requires forall k :: 0 <= k < |fs| ==> PlainFeed(fs[k])
    ensures SplitFeeds(JoinFeeds(fs)) == fs
  {
    if fs != [] {
      PlainFeedsSurvive(fs);
      RoundTripExactly(fs);
    }
  }

  lemma HiddenCommaDoesNotSplit()
    ensures Split("a:,|") == ["a:,|"]
  {
    TrimFixesExactlyTrimmed("|");
    SplitStep("|"); SplitStep(",|"); SplitStep(":,|"); SplitStep("a:,|");
    assert ",|"[1..] == "|" && ":,|"[1..] == ",|" && "a:,|"[1..] == ":,|" && "|"[1..] == "";
    assert Split("a:,|") == ["a" + (":" + ("," + ("|" + "")))];
    assert "a" + (":" + ("," + ("|" + ""))) == "a:,|";
  }

  lemma BareCommaSplits()
    ensures Split("a:,") == ["a:", ""]
  {
    SplitStep(","); SplitStep(":,"); SplitStep("a:,");
    assert ","[1..] == "" && ":,"[1..] == "," && "a:,"[1..] == ":,";
    assert Split("a:,") == ["a" + (":" + ""), ""];
    assert "a" + (":" + "") == "a:";
  }

  /** A value the parser accepts need not survive being rendered: the stray '|' hides the trailing comma of the
      URL, and without it the comma separates. */
  lemma StrayPipeSplitsOneFeedInTwo()
    ensures Split("a:,|") == ["a:,|"] && ParseEntry("a:,|") == Feed("a:,", None)
    ensures JoinFeeds([Feed("a:,", None)]) == "a:," && Split("a:,") == ["a:", ""]
  {
    TrimFixesExactlyTrimmed("a:,");
    TrimFixesExactlyTrimmed("a:,|");
    HiddenCommaDoesNotSplit();
    BareCommaSplits();
    IndexOfFirst("a:,", '|', "");
    assert "a:,|" == "a:," + "|" + "" && "a:,|"[..3] == "a:,";
  }
}
