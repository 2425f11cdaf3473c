/** Reading configuration files in place: the line buffer, `strtok`, `trim_whitespace`, `read_config` and
    `trfx_load_runtime_config` (`trfx_config`). */
module ConfigReader {
  import opened Config
  import opened CStrings
  import opened History
  import opened TextFile

  // ---------------------------------------------------------------- texts in a buffer

  /** `text`, followed by its NUL, stands at index `i`. */
  ghost predicate Holds(buffer: seq<char>, i: nat, text: string) {
    i + |text| < |buffer| && buffer[i..i + |text|] == text && buffer[i + |text|] == '\0' && NulFree(text)
  }

  lemma HoldsHead(buffer: seq<char>, i: nat, text: string)
    requires Holds(buffer, i, text)
    ensures text == "" <==> buffer[i] == '\0'
    ensures text != "" ==> buffer[i] == text[0] && Holds(buffer, i + 1, text[1..])
  {
    if text != "" {
      assert buffer[i..i + |text|][0] == text[0];
      assert buffer[i + 1..i + |text|] == text[1..];
    }
  }

  lemma HoldsNext(buffer: seq<char>, i: nat, text: string, n: nat)
    requires n <= |text| && Holds(buffer, i + n, text[n..])
    ensures n == |text| <==> buffer[i + n] == '\0'
    ensures n < |text| ==> buffer[i + n] == text[n] && Holds(buffer, i + n + 1, text[n + 1..])
  {
    HoldsHead(buffer, i + n, text[n..]);
    assert n < |text| ==> text[n..][1..] == text[n + 1..];
  }

  /** A text is kept when its bytes and its NUL are. */
  lemma HoldsKept(before: seq<char>, after: seq<char>, i: nat, text: string)
    requires Holds(before, i, text) && |after| == |before|
    requires before[i..i + |text| + 1] == after[i..i + |text| + 1]
    ensures Holds(after, i, text)
  {
    assert before[i..i + |text|] == before[i..i + |text| + 1][..|text|];
    assert after[i..i + |text|] == after[i..i + |text| + 1][..|text|];
    assert before[i + |text|] == before[i..i + |text| + 1][|text|] == after[i..i + |text| + 1][|text|];
  }

  /** Putting a NUL inside a text cuts it there. */
  lemma HoldsCut(buffer: seq<char>, i: nat, text: string, n: nat)
    requires Holds(buffer, i, text) && n <= |text|
    ensures Holds(buffer[i + n := '\0'], i, text[..n])
  {
    var after := buffer[i + n := '\0'];
    assert after[i..i + n] == buffer[i..i + |text|][..n];
  }

  /** The first `isspace` loop of `trim_whitespace`. */
  method SkipLeading(buffer: array<char>, str: nat, ghost text: string) returns (start: nat)
    requires Holds(buffer[..], str, text)
    ensures start + |SkipSpaces(text)| == str + |text| && Holds(buffer[..], start, SkipSpaces(text))
  {
    start := str;
    ghost var rest := text;
    while IsSpace(buffer[start])
      invariant start + |rest| == str + |text| && Holds(buffer[..], start, rest)
      invariant SkipSpaces(rest) == SkipSpaces(text)
      decreases |rest|
    {
      HoldsHead(buffer[..], start, rest);
      start := start + 1;
      rest := rest[1..];
    }
    HoldsHead(buffer[..], start, rest);
  }

  /** The first `i` bytes are moved from `start` to `str`, the others still stand where they stood. */
  ghost predicate Moved(buffer: seq<char>, str: nat, start: nat, text: string, i: nat) {
    && str < start && i <= |text| && Holds(buffer, start + i, text[i..])
    && buffer[str..str + i] == text[..i]
  }

  /** Only bytes from `lo` up to `hi` may differ. */
  ghost predicate SameOutside(before: seq<char>, after: seq<char>, lo: nat, hi: nat) {
    && |after| == |before|
    && (forall k :: 0 <= k < |before| && (k < lo || hi <= k) ==> after[k] == before[k])
  }

  lemma MoveOne(before: seq<char>, str: nat, start: nat, text: string, i: nat)
    requires Moved(before, str, start, text, i) && i < |text|
    ensures before[start + i] != '\0'
    ensures var after := before[str + i := before[start + i]];
            Moved(after, str, start, text, i + 1) && SameOutside(before, after, str, start + |text|)
  {
    var after := before[str + i := before[start + i]];
    HoldsNext(before, start, text, i);
    HoldsKept(before, after, start + i + 1, text[i + 1..]);
    assert after[str..str + i] == before[str..str + i];
    assert text[..i + 1] == text[..i] + [text[i]];
    assert after[str..str + i + 1] == after[str..str + i] + [after[str + i]];
  }

  lemma MoveEnd(before: seq<char>, str: nat, start: nat, text: string)
    requires Moved(before, str, start, text, |text|) && NulFree(text)
    ensures before[start + |text|] == '\0'
    ensures var after := before[str + |text| := '\0'];
            Holds(after, str, text) && SameOutside(before, after, str, start + |text|)
  {
    HoldsHead(before, start + |text|, text[|text|..]);
    var after := before[str + |text| := '\0'];
    assert after[str..str + |text|] == before[str..str + |text|];
    assert text[..|text|] == text;
  }

  /** `memmove` of a text and its NUL to the left. */
  method MoveLeft(buffer: array<char>, str: nat, start: nat, ghost text: string)
    requires str < start && Holds(buffer[..], start, text)
    modifies buffer
    ensures Holds(buffer[..], str, text)
    ensures buffer[..str] == old(buffer[..str]) && buffer[start + |text|..] == old(buffer[start + |text|..])
  {
    var i := 0;
    ghost var was := buffer[..];
    assert text[0..] == text;
    while buffer[start + i] != '\0'
      invariant Moved(buffer[..], str, start, text, i)
      invariant SameOutside(was, buffer[..], str, start + |text|)
      decreases |text| - i
    {
      ghost var before := buffer[..];
      HoldsNext(before, start, text, i);
      MoveOne(before, str, start, text, i);
      buffer[str + i] := buffer[start + i];
      assert buffer[..] == before[str + i := before[start + i]];
      i := i + 1;
    }
    ghost var before := buffer[..];
    HoldsNext(before, start, text, i);
    MoveEnd(before, str, start, text);
    buffer[str + i] := '\0';
    assert buffer[..] == before[str + i := '\0'];
  }

  /** The second loop of `trim_whitespace`: the length of the text without the spaces at its end. */
  method TrimmedLength(buffer: array<char>, str: nat, ghost text: string, length: nat) returns (n: nat)
    requires Holds(buffer[..], str, text) && length == |text| > 0 && !IsSpace(text[0])
    ensures n <= |text| && text[..n] == TrimEnd(text)
  {
    var end := str + length - 1;
    assert text[..length] == text;
    while end > str && IsSpace(buffer[end])
      invariant str <= end < str + |text|
      invariant TrimEnd(text[..end - str + 1]) == TrimEnd(text)
    {
      assert buffer[end] == buffer[str..str + |text|][end - str];
      assert text[..end - str + 1][..end - str] == text[..end - str];
      end := end - 1;
    }
    assert buffer[end] == buffer[str..str + |text|][end - str];
    n := end - str + 1;
  }

  /** `strlen`. */
  method Length(buffer: array<char>, str: nat, ghost text: string) returns (n: nat)
    requires Holds(buffer[..], str, text)
    ensures n == |text|
  {
    n := 0;
    while buffer[str + n] != '\0'
      invariant n <= |text| && Holds(buffer[..], str + n, text[n..])
      decreases |text| - n
    {
      HoldsNext(buffer[..], str, text, n);
      n := n + 1;
    }
    HoldsNext(buffer[..], str, text, n);
  }

  /** `trim_whitespace`: the text at `str` loses its outer spaces; nothing before it or behind its NUL changes. */
  method TrimWhitespace(buffer: array<char>, str: nat, ghost text: string)
    requires Holds(buffer[..], str, text)
    modifies buffer
    ensures Holds(buffer[..], str, Trim(text))
    ensures buffer[..str] == old(buffer[..str]) && buffer[str + |text|..] == old(buffer[str + |text|..])
  {
    var start := SkipLeading(buffer, str, text);
    ghost var t := SkipSpaces(text);
    if start != str {
      MoveLeft(buffer, str, start, t);
    }
    HoldsHead(buffer[..], str, t);
    if buffer[str] == '\0' {
      return;
    }
    var length := Length(buffer, str, t);
    var n := TrimmedLength(buffer, str, t, length);
    HoldsCut(buffer[..], str, t, n);
    ghost var before := buffer[..];
    buffer[str + n] := '\0';
    assert buffer[..] == before[str + n := '\0'];
    assert n < |t| || before[str + n] == '\0';
  }

  /** Skips delimiters in front of a token. */
  method SkipDelimiters(buffer: array<char>, from: nat, ghost text: string) returns (i: nat)
    requires Holds(buffer[..], from, text)
    ensures from <= i && Holds(buffer[..], i, SkipEquals(text))
  {
    i := from;
    ghost var rest := text;
    while buffer[i] == '='
      invariant from <= i && Holds(buffer[..], i, rest) && SkipEquals(rest) == SkipEquals(text)
      decreases |rest|
    {
      HoldsHead(buffer[..], i, rest);
      i := i + 1;
      rest := rest[1..];
    }
    HoldsHead(buffer[..], i, rest);
  }

  lemma TokenIs(text: string, n: nat)
    requires n <= |text| && (forall k :: 0 <= k < n ==> text[k] != '=') && (n == |text| || text[n] == '=')
    ensures UpToEquals(text) == text[..n]
  {
    assert text == text[..n] + text[n..];
    UpToEqualsIs(text[..n], text[n..]);
  }

  /** The delimiter behind a token becomes its NUL; the rest starts behind it. */
  lemma CutToken(before: seq<char>, i: nat, text: string, n: nat)
    requires n < |text| && Holds(before, i, text) && Holds(before, i + n, text[n..])
    ensures var after := before[i + n := '\0'];
            && Holds(after, i, text[..n]) && Holds(after, i + n + 1, text[n + 1..])
            && after[..i] == before[..i]
  {
    HoldsCut(before, i, text, n);
    HoldsHead(before, i + n, text[n..]);
    assert text[n..][1..] == text[n + 1..];
    HoldsKept(before, before[i + n := '\0'], i + n + 1, text[n + 1..]);
  }

  /** The length of a token. */
  method TokenLength(buffer: array<char>, start: nat, ghost text: string) returns (n: nat)
    requires Holds(buffer[..], start, text)
    ensures n <= |text| && text[..n] == UpToEquals(text)
    ensures Holds(buffer[..], start + n, text[n..])
    ensures buffer[start + n] == if n < |text| then '=' else '\0'
  {
    n := 0;
    while buffer[start + n] != '\0' && buffer[start + n] != '='
      invariant n <= |text| && Holds(buffer[..], start + n, text[n..])
      invariant forall k :: 0 <= k < n ==> text[k] != '='
      decreases |text| - n
    {
      HoldsNext(buffer[..], start, text, n);
      n := n + 1;
    }
    HoldsNext(buffer[..], start, text, n);
    TokenIs(text, n);
  }

  lemma SamePrefix(before: seq<char>, after: seq<char>, i: nat, from: nat)
    requires from <= i <= |before| && |after| == |before| && after[..i] == before[..i]
    ensures after[..from] == before[..from]
  {
    assert after[..from] == after[..i][..from] && before[..from] == before[..i][..from];
  }

  /** Ends the token that starts at `i` and has `n` bytes. */
  method CutAt(buffer: array<char>, from: nat, i: nat, ghost text: string, n: nat)
    requires from <= i && n < |text| && Holds(buffer[..], i, text) && Holds(buffer[..], i + n, text[n..])
    modifies buffer
    ensures Holds(buffer[..], i, text[..n]) && Holds(buffer[..], i + n + 1, text[n + 1..])
    ensures buffer[..from] == old(buffer[..from])
  {
    ghost var before := buffer[..];
    CutToken(before, i, text, n);
    buffer[i + n] := '\0';
    assert buffer[..] == before[i + n := '\0'];
    SamePrefix(before, buffer[..], i, from);
  }

  /** Token and rest stand in the buffer, the rest behind the token's NUL, or on it when it is empty. */
  ghost predicate IsToken(buffer: seq<char>, token: nat, next: nat, t: Tok) {
    && Holds(buffer, token, t.token) && Holds(buffer, next, t.rest)
    && token + |t.token| <= next && (token + |t.token| == next ==> t.rest == "")
  }

  lemma AfterIs(text: string, n: nat)
    requires n <= |text| && text[..n] == UpToEquals(text)
    ensures AfterEquals(text) == if n == |text| then "" else text[n + 1..]
  {
    assert |text[..n]| == n;
  }

  lemma WholeToken(buffer: seq<char>, i: nat, text: string)
    requires Holds(buffer, i, text)
    ensures IsToken(buffer, i, i + |text|, Tok(text, ""))
  {
  }

  /** Ends the token at the start of a text, and says where the rest starts. */
  method TakeToken(buffer: array<char>, from: nat, i: nat, ghost text: string) returns (next: nat)
    requires from <= i && Holds(buffer[..], i, text)
    modifies buffer
    ensures IsToken(buffer[..], i, next, Tok(UpToEquals(text), AfterEquals(text)))
    ensures buffer[..from] == old(buffer[..from])
  {
    var n := TokenLength(buffer, i, text);
    AfterIs(text, n);
    next := i + n;
    if buffer[next] == '=' {
      CutAt(buffer, from, i, text, n);
      next := next + 1;
    } else {
      assert text[..n] == text;
      WholeToken(buffer[..], i, text);
    }
  }

  /** `strtok(…, "=")` from index `from` on: where the token starts and where the next one is looked for. */
  method Strtok(buffer: array<char>, from: nat, ghost text: string) returns (token: Option<nat>, next: nat)
    requires Holds(buffer[..], from, text)
    modifies buffer
    ensures Config.Strtok(text).None? ==> token.None?
    ensures Config.Strtok(text).Some? ==>
              token.Some? && from <= token.value && IsToken(buffer[..], token.value, next, Config.Strtok(text).value)
    ensures buffer[..from] == old(buffer[..from])
  {
    var i := SkipDelimiters(buffer, from, text);
    ghost var rest := SkipEquals(text);
    HoldsHead(buffer[..], i, rest);
    next := i;
    if buffer[i] == '\0' {
      return None, next;
    }
    token := Some(i);
    next := TakeToken(buffer, from, i, rest);
  }

  // ---------------------------------------------------------------- one line

  /** `fgets` fills the buffer, and the line is cut at its newline. */
  method Fill(buffer: array<char>, chunk: string)
    requires |chunk| < buffer.Length
    modifies buffer
    ensures Holds(buffer[..], 0, LineOf(chunk))
  {
    for i := 0 to |chunk|
      invariant buffer[..i] == chunk[..i]
    {
      buffer[i] := chunk[i];
    }
    buffer[|chunk|] := '\0';
    assert buffer[..|chunk|] == chunk;
    var n := 0;
    while buffer[n] != '\n' && buffer[n] != '\0'
      invariant n <= |chunk|
      invariant forall k :: 0 <= k < n ==> chunk[k] != '\n' && chunk[k] != '\0'
      decreases |chunk| - n
    {
      assert n < |chunk| ==> buffer[n] == buffer[..|chunk|][n];
      n := n + 1;
    }
    assert n < |chunk| ==> buffer[n] == buffer[..|chunk|][n];
    LineOfIs(chunk, n);
    assert buffer[..n] == buffer[..|chunk|][..n];
    buffer[n] := '\0';
  }

  /** The text at an index, as a value. */
  method Text(buffer: array<char>, str: nat, ghost text: string) returns (r: string)
    requires Holds(buffer[..], str, text)
    ensures r == text
  {
    var n := Length(buffer, str, text);
    r := buffer[str..str + n];
  }

  /** The key and value of a filled line buffer, trimmed in place. */
  method SplitLine(buffer: array<char>, ghost line: string) returns (entry: Option<(string, string)>)
    requires Holds(buffer[..], 0, line)
    modifies buffer
    ensures entry == Entry(line)
  {
    HoldsHead(buffer[..], 0, line);
    if buffer[0] == '#' || buffer[0] == '\0' {
      return None;
    }
    var key, afterKey := Strtok(buffer, 0, line);
    if key.None? {
      return None;
    }
    ghost var k := Config.Strtok(line).value;
    ghost var before := buffer[..];
    var value, afterValue := Strtok(buffer, afterKey, k.rest);
    if value.None? {
      return None;
    }
    ghost var v := Config.Strtok(k.rest).value;
    HoldsBefore(before, buffer[..], key.value, k.token, afterKey);
    var name, text := TrimBoth(buffer, key.value, k.token, value.value, v.token);
    entry := Some((name, text));
  }

  /** Trims the key and then the value, which stands behind it. */
  method TrimBoth(buffer: array<char>, key: nat, ghost k: string, value: nat, ghost v: string)
    returns (name: string, text: string)
    requires Holds(buffer[..], key, k) && Holds(buffer[..], value, v) && key + |k| < value
    modifies buffer
    ensures name == Trim(k) && text == Trim(v)
  {
    ghost var before := buffer[..];
    TrimWhitespace(buffer, key, k);
    HoldsBehind(before, buffer[..], value, v, key + |k|);
    before := buffer[..];
    TrimWhitespace(buffer, value, v);
    HoldsBefore(before, buffer[..], key, Trim(k), value);
    name := Text(buffer, key, Trim(k));
    text := Text(buffer, value, Trim(v));
  }

  lemma HoldsBefore(before: seq<char>, after: seq<char>, i: nat, text: string, bound: nat)
    requires Holds(before, i, text) && |after| == |before|
    requires i + |text| < bound <= |before| && before[..bound] == after[..bound]
    ensures Holds(after, i, text)
  {
    assert before[i..i + |text| + 1] == before[..bound][i..i + |text| + 1];
    assert after[i..i + |text| + 1] == after[..bound][i..i + |text| + 1];
    HoldsKept(before, after, i, text);
  }

  lemma HoldsBehind(before: seq<char>, after: seq<char>, i: nat, text: string, bound: nat)
    requires Holds(before, i, text) && |after| == |before|
    requires bound <= i && before[bound..] == after[bound..]
    ensures Holds(after, i, text)
  {
    forall k | i <= k <= i + |text|
      ensures before[k] == after[k]
    {
      assert before[bound..][k - bound] == after[bound..][k - bound];
    }
    HoldsKept(before, after, i, text);
  }

  // ---------------------------------------------------------------- profiles

  /** The environment variables, and what the file at a path holds if it can be opened. */
  datatype Environment = Environment(
    configFile: Option<string>, profileDir: Option<string>, home: Option<string>, files: string -> Option<string>)

  predicate IsProfileChar(c: char) {
    IsDigit(c) || 'A' <= c <= 'Z' || 'a' <= c <= 'z' || c == '_' || c == '-' || c == '.'
  }

  predicate IsValidProfileName(name: string) {
    name != "" && forall i :: 0 <= i < |name| ==> IsProfileChar(name[i])
  }

  /** A variable that is set to something. */
  function Given(variable: Option<string>): Option<string> {
    if variable == Some("") then None else variable
  }

  function ProfileDirectory(env: Environment): Option<string> {
    match Given(env.profileDir)
    case Some(dir) => Some(dir)
    case None =>
      match Given(env.home)
      case Some(home) => Some(Fit(home + "/.config/trafix/profiles", 512))
      case None => None
  }

  const PROFILE_PATH_SIZE: nat := 512

  /** `build_profile_path`. */
  function ProfilePath(name: string, env: Environment): (path: Option<string>)
    ensures path.Some? ==> |path.value| < PROFILE_PATH_SIZE && '/' !in name
    ensures path.Some? ==> ProfileDirectory(env).Some? && path == Some(ProfileDirectory(env).value + "/" + name + ".cfg")
  {
    if !IsValidProfileName(name) then None
    else
      match ProfileDirectory(env)
      case None => None
      case Some(dir) =>
        if |dir| + 1 + |name| + 4 + 1 > PROFILE_PATH_SIZE then None else Some(dir + "/" + name + ".cfg")
  }

  const CONFIG_FILE: string := "/etc/trafix/config.cfg"

  function BasePath(env: Environment): string {
    match Given(env.configFile)
    case Some(path) => path
    case None => CONFIG_FILE
  }

  /** The chunks of a file; a file that cannot be opened has none. */
  function FileChunks(file: Option<string>): seq<string> {
    match file
    case None => []
    case Some(bytes) => Chunks(bytes, LINE_SIZE)
  }

  /** The chunks of a profile's file; a missing or unusable profile has none. */
  function ProfileChunks(profile: Option<string>, env: Environment): seq<string> {
    match Given(profile)
    case None => []
    case Some(name) =>
      match ProfilePath(name, env)
      case None => []
      case Some(path) => FileChunks(env.files(path))
  }

  /** The global settings. */
  class RuntimeConfig {
    var settings: Settings

    constructor ()
      ensures settings == INITIAL
    {
      settings := INITIAL;
    }

    /** One assignment of `read_config`. */
    method Assign(key: string, value: string, atoi: string -> int)
      modifies this
      ensures settings == match KeyOf(key)
                          case None => old(settings)
                          case Some(k) => Set(old(settings), k, ParseValue(k, value, atoi))
    {
      var k := KeyOf(key);
      if k.None? {
        return;
      }
      match k.value
      case TempWarnYellow => settings := settings.(tempWarnYellow := atoi(value));
      case TempWarnRed => settings := settings.(tempWarnRed := atoi(value));
      case MemoryWarnPercent => settings := settings.(memoryWarnPercent := ParseBoundedInt(value, Bounds(90, 1, 100)));
      case DiskWarnPercent => settings := settings.(diskWarnPercent := ParseBoundedInt(value, Bounds(90, 1, 100)));
      case RequireDefaultRoute => settings := settings.(requireDefaultRoute := ParseBool(value, Bounds(1, 0, 1)));
      case RequireDns => settings := settings.(requireDns := ParseBool(value, Bounds(1, 0, 1)));
      case ShowTopPanels => settings := settings.(showTopPanels := ParseBool(value, Bounds(1, 0, 1)));
      case RefreshInterval => settings := settings.(refreshInterval := ParseBoundedInt(value, Bounds(1000, 250, 10000)));
      case PauseInterval => settings := settings.(pauseInterval := ParseBoundedInt(value, Bounds(100, 25, 1000)));
      case ReadyCheckInterval => settings := settings.(readyCheckInterval := ParseBoundedInt(value, Bounds(10, 1, 250)));
      case SmallPanelRefresh => settings := settings.(smallPanelRefresh := ParseBoundedInt(value, Bounds(2000, 250, 10000)));
    }

    /** `read_config`; the lines of the file overlay the settings one by one. */
    method ReadConfig(file: Option<string>, atoi: string -> int)
      modifies this
      ensures settings == Overlay(old(settings), FileChunks(file), atoi)
    {
      if file.None? {
        return;
      }
      var buffer := new char[LINE_SIZE];
      var rest := file.value;
      ghost var done: seq<string> := [];
      while rest != ""
        invariant Chunks(file.value, LINE_SIZE) == done + Chunks(rest, LINE_SIZE)
        invariant settings == Overlay(old(settings), done, atoi)
        decreases |rest|
      {
        var n := ChunkLength(rest, LINE_SIZE - 1);
        var chunk := rest[..n];
        Fill(buffer, chunk);
        var entry := SplitLine(buffer, LineOf(chunk));
        if entry.Some? {
          Assign(entry.value.0, entry.value.1, atoi);
        }
        done := done + [chunk];
        rest := rest[n..];
      }
      assert done + [] == done;
    }

    /** `trfx_load_runtime_config`: false exactly when a profile is asked for and cannot be read. */
    method LoadRuntimeConfig(profile: Option<string>, env: Environment, atoi: string -> int) returns (ok: bool)
      modifies this
      ensures settings == Overlay(Overlay(old(settings), FileChunks(env.files(BasePath(env))), atoi),
                                  ProfileChunks(profile, env), atoi)
      ensures ok <==> Given(profile).None? ||
                      (ProfilePath(profile.value, env).Some? && env.files(ProfilePath(profile.value, env).value).Some?)
    {
      ReadConfig(env.files(BasePath(env)), atoi);
      if profile.None? || profile.value == "" {
        return true;
      }
      var path := ProfilePath(profile.value, env);
      if path.None? {
        return false;
      }
      if env.files(path.value).None? {
        return false;
      }
      ReadConfig(env.files(path.value), atoi);
      ok := true;
    }
  }

  /** A start with a profile sets what one file with the lines of both would, and keeps every bound. */
  lemma ProfileOverlaysBase(s: Settings, profile: Option<string>, env: Environment, atoi: string -> int)
    requires InRange(s)
    ensures var base, over := FileChunks(env.files(BasePath(env))), ProfileChunks(profile, env);
            var loaded := Overlay(Overlay(s, base, atoi), over, atoi);
            loaded == Overlay(s, base + over, atoi) && InRange(loaded)
  {
    var base, over := FileChunks(env.files(BasePath(env))), ProfileChunks(profile, env);
    OverlayConcat(s, base, over, atoi);
    OverlayInRange(s, base + over, atoi);
  }
}
