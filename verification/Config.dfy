/** Configuration files: `read_config` and its value parsers (`trfx_config`). */
module Config {
  import opened CStrings
  import opened History
  import opened TextFile

  datatype Key =
    | TempWarnYellow | TempWarnRed
    | MemoryWarnPercent | DiskWarnPercent
    | RequireDefaultRoute | RequireDns | ShowTopPanels
    | RefreshInterval | PauseInterval | ReadyCheckInterval | SmallPanelRefresh

  /** The eleven global settings. */
  datatype Settings = Settings(
    tempWarnYellow: int, tempWarnRed: int, memoryWarnPercent: int, diskWarnPercent: int,
    requireDefaultRoute: int, requireDns: int, showTopPanels: int,
    refreshInterval: int, pauseInterval: int, readyCheckInterval: int, smallPanelRefresh: int)

  const INITIAL: Settings := Settings(50, 75, 90, 90, 1, 1, 1, 1000, 100, 10, 2000)

  function Get(s: Settings, k: Key): int {
    match k
    case TempWarnYellow => s.tempWarnYellow
    case TempWarnRed => s.tempWarnRed
    case MemoryWarnPercent => s.memoryWarnPercent
    case DiskWarnPercent => s.diskWarnPercent
    case RequireDefaultRoute => s.requireDefaultRoute
    case RequireDns => s.requireDns
    case ShowTopPanels => s.showTopPanels
    case RefreshInterval => s.refreshInterval
    case PauseInterval => s.pauseInterval
    case ReadyCheckInterval => s.readyCheckInterval
    case SmallPanelRefresh => s.smallPanelRefresh
  }

  function Set(s: Settings, k: Key, v: int): (r: Settings)
    ensures Get(r, k) == v
    ensures forall other :: other != k ==> Get(r, other) == Get(s, other)
  {
    match k
    case TempWarnYellow => s.(tempWarnYellow := v)
    case TempWarnRed => s.(tempWarnRed := v)
    case MemoryWarnPercent => s.(memoryWarnPercent := v)
    case DiskWarnPercent => s.(diskWarnPercent := v)
    case RequireDefaultRoute => s.(requireDefaultRoute := v)
    case RequireDns => s.(requireDns := v)
    case ShowTopPanels => s.(showTopPanels := v)
    case RefreshInterval => s.(refreshInterval := v)
    case PauseInterval => s.(pauseInterval := v)
    case ReadyCheckInterval => s.(readyCheckInterval := v)
    case SmallPanelRefresh => s.(smallPanelRefresh := v)
  }

  /** Settings are equal when each one is. */
  lemma SameSettings(a: Settings, b: Settings)
    requires forall k :: Get(a, k) == Get(b, k)
    ensures a == b
  {
    assert Get(a, TempWarnYellow) == Get(b, TempWarnYellow);
    assert Get(a, TempWarnRed) == Get(b, TempWarnRed);
    assert Get(a, MemoryWarnPercent) == Get(b, MemoryWarnPercent);
    assert Get(a, DiskWarnPercent) == Get(b, DiskWarnPercent);
    assert Get(a, RequireDefaultRoute) == Get(b, RequireDefaultRoute);
    assert Get(a, RequireDns) == Get(b, RequireDns);
    assert Get(a, ShowTopPanels) == Get(b, ShowTopPanels);
    assert Get(a, RefreshInterval) == Get(b, RefreshInterval);
    assert Get(a, PauseInterval) == Get(b, PauseInterval);
    assert Get(a, ReadyCheckInterval) == Get(b, ReadyCheckInterval);
    assert Get(a, SmallPanelRefresh) == Get(b, SmallPanelRefresh);
  }

  function KeyName(k: Key): string {
    match k
    case TempWarnYellow => "TEMP_WARN_YELLOW"
    case TempWarnRed => "TEMP_WARN_RED"
    case MemoryWarnPercent => "ALERT_MEMORY_WARN_PERCENT"
    case DiskWarnPercent => "ALERT_DISK_WARN_PERCENT"
    case RequireDefaultRoute => "ALERT_REQUIRE_DEFAULT_ROUTE"
    case RequireDns => "ALERT_REQUIRE_DNS"
    case ShowTopPanels => "SHOW_TOP_PANELS"
    case RefreshInterval => "TUI_REFRESH_INTERVAL_MS"
    case PauseInterval => "TUI_PAUSE_INTERVAL_MS"
    case ReadyCheckInterval => "TUI_READY_CHECK_INTERVAL_MS"
    case SmallPanelRefresh => "TUI_SMALL_PANEL_REFRESH_MS"
  }

  /** What a key's value may be, and what it becomes when the text is no good. */
  datatype Bounds = Bounds(default: int, min: int, max: int)

  function BoundsOf(k: Key): Option<Bounds> {
    match k
    case TempWarnYellow | TempWarnRed => None
    case MemoryWarnPercent | DiskWarnPercent => Some(Bounds(90, 1, 100))
    case RequireDefaultRoute | RequireDns | ShowTopPanels => Some(Bounds(1, 0, 1))
    case RefreshInterval => Some(Bounds(1000, 250, 10000))
    case PauseInterval => Some(Bounds(100, 25, 1000))
    case ReadyCheckInterval => Some(Bounds(10, 1, 250))
    case SmallPanelRefresh => Some(Bounds(2000, 250, 10000))
  }

  predicate IsSwitch(k: Key) {
    k.RequireDefaultRoute? || k.RequireDns? || k.ShowTopPanels?
  }

  // ---------------------------------------------------------------- values

  /** `parse_bounded_int`: digits with a sign, spaces around, and in range; anything else is the default. */
  function ParseBoundedInt(value: string, b: Bounds): (r: int)
    ensures b.min <= b.default <= b.max ==> b.min <= r <= b.max
  {
    var scan := Strtol(value);
    if value == "" || SkipSpaces(scan.rest) != "" then b.default
    else if scan.value < b.min || scan.value > b.max then b.default
    else scan.value
  }

  function LowerChar(c: char): char {
    if 'A' <= c <= 'Z' then c - 'A' + 'a' else c
  }

  /** `strcasecmp` against a lower-case word finds no difference. */
  predicate SameWord(s: string, word: string) {
    |s| == |word| && forall i :: 0 <= i < |s| ==> LowerChar(s[i]) == word[i]
  }

  function ParseBool(value: string, b: Bounds): (r: int)
    ensures b.min == 0 && b.max == 1 && 0 <= b.default <= 1 ==> 0 <= r <= 1
  {
    if SameWord(value, "true") || SameWord(value, "yes") || SameWord(value, "on") then 1
    else if SameWord(value, "false") || SameWord(value, "no") || SameWord(value, "off") then 0
    else ParseBoundedInt(value, b)
  }

  function ParseValue(k: Key, value: string, atoi: string -> int): int {
    match BoundsOf(k)
    case None => atoi(value)
    case Some(b) => if IsSwitch(k) then ParseBool(value, b) else ParseBoundedInt(value, b)
  }

  // ---------------------------------------------------------------- lines

  const LINE_SIZE: nat := 256

  function SkipEquals(s: string): (r: string)
    ensures |r| <= |s| && (r == "" || r[0] != '=')
  {
    if s != "" && s[0] == '=' then SkipEquals(s[1..]) else s
  }

  /** The text before the first `=`. */
  function UpToEquals(s: string): (r: string)
    ensures |r| <= |s| && '=' !in r
    ensures s != "" && s[0] != '=' ==> r != ""
  {
    if s == "" || s[0] == '=' then "" else [s[0]] + UpToEquals(s[1..])
  }

  /** The text behind the first `=`. */
  function AfterEquals(s: string): string {
    var n := |UpToEquals(s)|;
    if n == |s| then "" else s[n + 1..]
  }

  /** One `strtok(…, "=")`: the token and what is left behind the `=` that ended it. */
  datatype Tok = Tok(token: string, rest: string)

  function Strtok(s: string): Option<Tok> {
    var t := SkipEquals(s);
    if t == "" then None else Some(Tok(UpToEquals(t), AfterEquals(t)))
  }

  function TrimEnd(s: string): (r: string)
    ensures |r| <= |s| && (r != "" ==> !IsSpace(r[|r| - 1]))
  {
    if s != "" && IsSpace(s[|s| - 1]) then TrimEnd(s[..|s| - 1]) else s
  }

  function Trim(s: string): string {
    TrimEnd(SkipSpaces(s))
  }

  /** The trimmed key and value of a line; empty lines, comments and lines without both parts have none. */
  function Entry(line: string): Option<(string, string)> {
    if line == "" || line[0] == '#' then None
    else
      match Strtok(line)
      case None => None
      case Some(key) =>
        match Strtok(key.rest)
        case None => None
        case Some(value) => Some((Trim(key.token), Trim(value.token)))
  }

  /** The key with this name. */
  function KeyOf(name: string): (r: Option<Key>)
    ensures r.Some? ==> KeyName(r.value) == name
  {
    if name == KeyName(TempWarnYellow) then Some(TempWarnYellow)
    else if name == KeyName(TempWarnRed) then Some(TempWarnRed)
    else if name == KeyName(MemoryWarnPercent) then Some(MemoryWarnPercent)
    else if name == KeyName(DiskWarnPercent) then Some(DiskWarnPercent)
    else if name == KeyName(RequireDefaultRoute) then Some(RequireDefaultRoute)
    else if name == KeyName(RequireDns) then Some(RequireDns)
    else if name == KeyName(ShowTopPanels) then Some(ShowTopPanels)
    else if name == KeyName(RefreshInterval) then Some(RefreshInterval)
    else if name == KeyName(PauseInterval) then Some(PauseInterval)
    else if name == KeyName(ReadyCheckInterval) then Some(ReadyCheckInterval)
    else if name == KeyName(SmallPanelRefresh) then Some(SmallPanelRefresh)
    else None
  }

  /** Different keys have different names, so every name finds its key. */
  lemma KeyOfName(k: Key)
    ensures KeyOf(KeyName(k)) == Some(k)
  {
    NameLengths();
    assert KeyName(MemoryWarnPercent)[0] != KeyName(RefreshInterval)[0];
  }

  /** The names differ in length, and those that do not differ in a letter. */
  lemma NameLengths()
    ensures |KeyName(TempWarnYellow)| == 16 && |KeyName(TempWarnRed)| == 13
    ensures |KeyName(MemoryWarnPercent)| == 25 && |KeyName(DiskWarnPercent)| == 23
    ensures |KeyName(RequireDefaultRoute)| == 27 && |KeyName(RequireDns)| == 17 && |KeyName(ShowTopPanels)| == 15
    ensures |KeyName(RefreshInterval)| == 23 && |KeyName(PauseInterval)| == 21
    ensures |KeyName(ReadyCheckInterval)| == 27 && |KeyName(SmallPanelRefresh)| == 26
    ensures KeyName(DiskWarnPercent)[0] == 'A' && KeyName(RefreshInterval)[0] == 'T'
    ensures KeyName(RequireDefaultRoute)[0] == 'A' && KeyName(ReadyCheckInterval)[0] == 'T'
  {
  }

  datatype Assignment = Assignment(key: Key, value: int)

  /** The assignment a line makes, if it is well formed and names a known key. */
  function Assigned(line: string, atoi: string -> int): Option<Assignment> {
    match Entry(line)
    case None => None
    case Some(entry) =>
      match KeyOf(entry.0)
      case None => None
      case Some(k) => Some(Assignment(k, ParseValue(k, entry.1, atoi)))
  }

  function ApplyLine(s: Settings, line: string, atoi: string -> int): Settings {
    match Assigned(line, atoi)
    case None => s
    case Some(a) => Set(s, a.key, a.value)
  }

  /** Lines overlay settings one after the other. */
  function Overlay(s: Settings, chunks: seq<string>, atoi: string -> int): Settings {
    if chunks == [] then s
    else ApplyLine(Overlay(s, chunks[..|chunks| - 1], atoi), LineOf(chunks[|chunks| - 1]), atoi)
  }

  // ---------------------------------------------------------------- the overlay

  /** The value of the last line that assigns a key. */
  function LastAssigned(chunks: seq<string>, k: Key, atoi: string -> int): Option<int> {
    if chunks == [] then None
    else
      match Assigned(LineOf(chunks[|chunks| - 1]), atoi)
      case Some(a) => if a.key == k then Some(a.value) else LastAssigned(chunks[..|chunks| - 1], k, atoi)
      case None => LastAssigned(chunks[..|chunks| - 1], k, atoi)
  }

  /** A key's final value depends only on the last line that assigns it. */
  lemma {:induction false} LastLineDecides(s: Settings, chunks: seq<string>, k: Key, atoi: string -> int)
    ensures Get(Overlay(s, chunks, atoi), k) ==
            match LastAssigned(chunks, k, atoi) case None => Get(s, k) case Some(v) => v
  {
    if chunks != [] {
      LastLineDecides(s, chunks[..|chunks| - 1], k, atoi);
    }
  }

  /** Reading one list of lines after another is reading both as one list. */
  lemma {:induction false} OverlayConcat(s: Settings, a: seq<string>, b: seq<string>, atoi: string -> int)
    ensures Overlay(s, a + b, atoi) == Overlay(Overlay(s, a, atoi), b, atoi)
  {
    if b == [] {
      assert a + b == a;
    } else {
      assert (a + b)[..|a + b| - 1] == a + b[..|b| - 1];
      OverlayConcat(s, a, b[..|b| - 1], atoi);
    }
  }

  /** Reading the same lines again changes nothing. */
  lemma OverlayIdempotent(s: Settings, chunks: seq<string>, atoi: string -> int)
    ensures Overlay(Overlay(s, chunks, atoi), chunks, atoi) == Overlay(s, chunks, atoi)
  {
    var once := Overlay(s, chunks, atoi);
    forall k
      ensures Get(Overlay(once, chunks, atoi), k) == Get(once, k)
    {
      LastLineDecides(s, chunks, k, atoi);
      LastLineDecides(once, chunks, k, atoi);
    }
    SameSettings(Overlay(once, chunks, atoi), once);
  }

  /** The nine settings that have bounds are inside them. */
  ghost predicate InRange(s: Settings) {
    forall k :: BoundsOf(k).Some? ==> BoundsOf(k).value.min <= Get(s, k) <= BoundsOf(k).value.max
  }

  lemma InitialInRange()
    ensures InRange(INITIAL)
    ensures forall k :: BoundsOf(k).Some? ==> Get(INITIAL, k) == BoundsOf(k).value.default
  {
  }

  lemma ValueInRange(k: Key, value: string, atoi: string -> int)
    requires BoundsOf(k).Some?
    ensures BoundsOf(k).value.min <= ParseValue(k, value, atoi) <= BoundsOf(k).value.max
  {
  }

  lemma LineInRange(s: Settings, line: string, atoi: string -> int)
    requires InRange(s)
    ensures InRange(ApplyLine(s, line, atoi))
  {
    var a := Assigned(line, atoi);
    if a.Some? && BoundsOf(a.value.key).Some? {
      ValueInRange(a.value.key, Entry(line).value.1, atoi);
    }
  }

  /** Whatever the lines say, the bounded settings stay in range. */
  lemma {:induction false} OverlayInRange(s: Settings, chunks: seq<string>, atoi: string -> int)
    requires InRange(s)
    ensures InRange(Overlay(s, chunks, atoi))
  {
    if chunks != [] {
      OverlayInRange(s, chunks[..|chunks| - 1], atoi);
      LineInRange(Overlay(s, chunks[..|chunks| - 1], atoi), LineOf(chunks[|chunks| - 1]), atoi);
    }
  }

  // ---------------------------------------------------------------- files

  /** Reading a base file and then a profile is reading the two files as one, when the base file ends its
      last line. */
  lemma ReadingConcatenated(s: Settings, base: string, profile: string, atoi: string -> int)
    requires EndsLine(base)
    ensures Overlay(s, Chunks(base + profile, LINE_SIZE), atoi) ==
            Overlay(Overlay(s, Chunks(base, LINE_SIZE), atoi), Chunks(profile, LINE_SIZE), atoi)
  {
    ChunksConcat(base, profile, LINE_SIZE);
    OverlayConcat(s, Chunks(base, LINE_SIZE), Chunks(profile, LINE_SIZE), atoi);
  }

  // ---------------------------------------------------------------- writing a setting and reading it

  predicate AllSpaces(s: string) {
    forall i :: 0 <= i < |s| ==> IsSpace(s[i])
  }

  /** A word: it starts and ends with something other than a space, and `=` is not in it. */
  predicate IsWord(s: string) {
    s != "" && !IsSpace(s[0]) && !IsSpace(s[|s| - 1]) && '=' !in s
  }

  lemma {:induction false} SkipPadding(pad: string, s: string)
    requires AllSpaces(pad) && s != "" && !IsSpace(s[0])
    ensures SkipSpaces(pad + s) == s
  {
    if pad == "" {
      assert pad + s == s;
    } else {
      assert (pad + s)[1..] == pad[1..] + s;
      SkipPadding(pad[1..], s);
    }
  }

  lemma {:induction false} TrimPadding(s: string, pad: string)
    requires AllSpaces(pad) && s != "" && !IsSpace(s[|s| - 1])
    ensures TrimEnd(s + pad) == s
  {
    if pad == "" {
      assert s + pad == s;
    } else {
      assert (s + pad)[..|s + pad| - 1] == s + pad[..|pad| - 1];
      TrimPadding(s, pad[..|pad| - 1]);
    }
  }

  lemma TrimPadded(before: string, s: string, after: string)
    requires AllSpaces(before) && AllSpaces(after) && IsWord(s)
    ensures Trim(before + s + after) == s
  {
    assert before + s + after == before + (s + after);
    SkipPadding(before, s + after);
    TrimPadding(s, after);
  }

  lemma {:induction false} UpToEqualsIs(s: string, rest: string)
    requires '=' !in s && (rest == "" || rest[0] == '=')
    ensures UpToEquals(s + rest) == s
  {
    if s == "" {
      assert s + rest == rest;
    } else {
      assert (s + rest)[1..] == s[1..] + rest;
      UpToEqualsIs(s[1..], rest);
    }
  }

  lemma StrtokIs(s: string, rest: string)
    requires s != "" && '=' !in s
    ensures Strtok(s) == Some(Tok(s, "")) && Strtok(s + "=" + rest) == Some(Tok(s, rest))
  {
    assert s + "" == s;
    UpToEqualsIs(s, "");
    assert s + "=" + rest == s + ("=" + rest);
    UpToEqualsIs(s, "=" + rest);
    assert (s + ("=" + rest))[|s| + 1..] == rest;
  }

  /** A line `key = value` with any spaces around the two words has exactly these as its entry. */
  lemma EntryOfLine(p1: string, key: string, p2: string, p3: string, value: string, p4: string)
    requires AllSpaces(p1) && AllSpaces(p2) && AllSpaces(p3) && AllSpaces(p4) && IsWord(key) && IsWord(value)
    requires p1 == "" ==> key[0] != '#'
    ensures Entry(p1 + key + p2 + "=" + (p3 + value + p4)) == Some((key, value))
  {
    StrtokIs(p1 + key + p2, p3 + value + p4);
    StrtokIs(p3 + value + p4, "");
    TrimPadded(p1, key, p2);
    TrimPadded(p3, value, p4);
  }

  lemma PanelNamesAreWords(k: Key)
    requires k.TempWarnYellow? || k.TempWarnRed? || k.ShowTopPanels?
    ensures IsWord(KeyName(k)) && KeyName(k)[0] != '#'
  {
  }

  lemma AlertNamesAreWords(k: Key)
    requires k.MemoryWarnPercent? || k.DiskWarnPercent? || k.RequireDefaultRoute? || k.RequireDns?
    ensures IsWord(KeyName(k)) && KeyName(k)[0] != '#'
  {
  }

  lemma IntervalNamesAreWords(k: Key)
    requires k.RefreshInterval? || k.PauseInterval? || k.ReadyCheckInterval? || k.SmallPanelRefresh?
    ensures IsWord(KeyName(k)) && KeyName(k)[0] != '#'
  {
  }

  lemma NamesAreWords(k: Key)
    ensures IsWord(KeyName(k)) && KeyName(k)[0] != '#'
  {
    if k.TempWarnYellow? || k.TempWarnRed? || k.ShowTopPanels? {
      PanelNamesAreWords(k);
    } else if k.MemoryWarnPercent? || k.DiskWarnPercent? || k.RequireDefaultRoute? || k.RequireDns? {
      AlertNamesAreWords(k);
    } else {
      IntervalNamesAreWords(k);
    }
  }

  lemma NumberIsWord(n: nat)
    ensures IsWord(Decimal(n))
  {
    var s := Decimal(n);
    assert IsDigit(s[0]) && IsDigit(s[|s| - 1]);
  }

  /** Writing a number into a bounded setting's line and reading it sets that number, if it is in range. */
  lemma SettingRoundTrip(p1: string, k: Key, p2: string, p3: string, n: nat, p4: string, atoi: string -> int)
    requires AllSpaces(p1) && AllSpaces(p2) && AllSpaces(p3) && AllSpaces(p4)
    requires BoundsOf(k).Some? && n <= LONG_MAX
    ensures var b := BoundsOf(k).value;
            Assigned(p1 + KeyName(k) + p2 + "=" + (p3 + Decimal(n) + p4), atoi)
            == Some(Assignment(k, if b.min <= n <= b.max then n else b.default))
  {
    NamesAreWords(k);
    NumberIsWord(n);
    EntryOfLine(p1, KeyName(k), p2, p3, Decimal(n), p4);
    KeyOfName(k);
    NumberValue(k, n, atoi);
  }

  lemma NumberValue(k: Key, n: nat, atoi: string -> int)
    requires BoundsOf(k).Some? && n <= LONG_MAX
    ensures var b := BoundsOf(k).value;
            ParseValue(k, Decimal(n), atoi) == if b.min <= n <= b.max then n else b.default
  {
    StrtolDecimal(n);
    DigitsAreNoWord(Decimal(n));
  }

  /** A sign, or none, and digits. */
  predicate IsNumeral(s: string) {
    var digits := Unsigned(s);
    digits != "" && forall i :: 0 <= i < |digits| ==> IsDigit(digits[i])
  }

  function Unsigned(s: string): string {
    if s != "" && (s[0] == '-' || s[0] == '+') then s[1..] else s
  }

  lemma {:induction false} SkipSpacesStops(s: string)
    requires s != "" && !IsSpace(s[|s| - 1])
    ensures SkipSpaces(s) != ""
  {
    if |s| > 1 {
      SkipSpacesStops(s[1..]);
    }
  }

  /** A word that is no numeral leaves something behind for `strtol`. */
  lemma NoNumeralStops(value: string)
    requires IsWord(value) && !IsNumeral(value)
    ensures SkipSpaces(Strtol(value).rest) != ""
  {
    var digits := Unsigned(value);
    var n := DigitRun(digits);
    assert SkipSpaces(value) == value;
    if n == 0 {
      SkipSpacesStops(value);
    } else {
      assert n < |digits| && digits[n..][|digits| - n - 1] == value[|value| - 1];
      SkipSpacesStops(digits[n..]);
    }
  }

  /** The words that a switch understands besides numbers. */
  predicate IsSwitchWord(value: string) {
    || SameWord(value, "true") || SameWord(value, "yes") || SameWord(value, "on")
    || SameWord(value, "false") || SameWord(value, "no") || SameWord(value, "off")
  }

  /** A malformed value is not ignored: the line sets the default of its bounded setting. */
  lemma MalformedSetsDefault(p1: string, k: Key, p2: string, p3: string, value: string, p4: string, atoi: string -> int)
    requires AllSpaces(p1) && AllSpaces(p2) && AllSpaces(p3) && AllSpaces(p4)
    requires BoundsOf(k).Some? && IsWord(value) && !IsNumeral(value) && (IsSwitch(k) ==> !IsSwitchWord(value))
    ensures Assigned(p1 + KeyName(k) + p2 + "=" + (p3 + value + p4), atoi)
            == Some(Assignment(k, BoundsOf(k).value.default))
  {
    NamesAreWords(k);
    EntryOfLine(p1, KeyName(k), p2, p3, value, p4);
    KeyOfName(k);
    NoNumeralStops(value);
  }

  lemma DigitsAreNoWord(s: string)
    requires s != "" && IsDigit(s[0])
    ensures !SameWord(s, "true") && !SameWord(s, "yes") && !SameWord(s, "on")
    ensures !SameWord(s, "false") && !SameWord(s, "no") && !SameWord(s, "off")
  {
    assert LowerChar(s[0]) == s[0];
  }
}
