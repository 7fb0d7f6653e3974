/**
 * The non-presentation logic of the metawards console singleton: the
 * debugging switch and level, the decision whether a debug message at a
 * level is shown, the level prefix of a shown message, and the choice of
 * console theme from a theme name or theme object.
 */
module Console {
  import opened Wrappers
  import opened Text

  /** The two debugging attributes the console carries. */
  datatype DebugState = DebugState(enabled: bool, level: Option<int>)

  /** A freshly created console: debugging off, no level. */
  const InitialDebugState: DebugState := DebugState(false, None)

  /** The argument values `set_debugging_enabled` is called with, as far as `bool()` sees them. */
  datatype PyValue = PyNone | PyBool(b: bool) | PyInt(i: int) | PyStr(s: string)

  /** Python's `bool(v)`: false exactly for `None`, `False`, `0` and the empty string. */
  function Truthy(v: PyValue): (b: bool)
    ensures !b <==> v in {PyNone, PyBool(false), PyInt(0), PyStr("")}
  {
    match v
    case PyNone => false
    case PyBool(b) => b
    case PyInt(i) => i != 0
    case PyStr(s) => s != ""
  }

  /**
   * `set_debugging_enabled(enabled, level)`: replaces both attributes; the
   * previous state has no influence on the new one.
   */
  function SetDebuggingEnabled(previous: DebugState, enabled: PyValue, level: Option<int>): (r: DebugState)
    ensures r.enabled <==> Truthy(enabled)
    ensures r.level == level
  {
    DebugState(Truthy(enabled), level)
  }

  /**
   * `debugging_enabled(level)`: off means nothing is shown; with a stored
   * level, a message is shown when it has no level or a level at most the
   * stored one; without a stored level only messages without a level are shown.
   */
  function DebuggingEnabled(st: DebugState, level: Option<int>): (r: bool)
    ensures !st.enabled ==> !r
    ensures st.enabled && st.level.Some? ==> (r <==> level.None? || level.value <= st.level.value)
    ensures st.enabled && st.level.None? ==> (r <==> level.None?)
  {
    if !st.enabled then false
    else if st.level.Some? then
      if level.None? then true else level.value <= st.level.value
    else
      level.None?
  }

  /** A console that was never configured shows no debug message at all. */
  lemma InitiallySilent(level: Option<int>)
    ensures !DebuggingEnabled(InitialDebugState, level)
  {
  }

  /**
   * The levels that are shown are closed downwards, and whenever any level is
   * shown, a message without a level is shown too.
   */
  lemma EnabledIsDownwardClosed(st: DebugState, l: int, lower: int)
    requires DebuggingEnabled(st, Some(l))
    requires lower <= l
    ensures DebuggingEnabled(st, Some(lower))
    ensures DebuggingEnabled(st, None)
  {
  }

  /**
   * After `set_debugging_enabled(enabled, level)`, a message at level `l` is
   * shown exactly when `enabled` is truthy and a level at least `l` was given.
   */
  lemma LevelQueryAfterSet(previous: DebugState, enabled: PyValue, level: Option<int>, l: int)
    ensures DebuggingEnabled(SetDebuggingEnabled(previous, enabled, level), Some(l))
            <==> Truthy(enabled) && (exists t :: level == Some(t) && l <= t)
  {
  }

  /** The text `debug` puts in front of a message logged at a level: `Level {level}: `. */
  function LevelPrefix(level: int): (p: string)
    ensures |p| > 8 && p[..6] == "Level " && p[|p| - 2..] == ": "
    ensures ':' !in p[6..|p| - 2]
    ensures p[6..|p| - 2] == IntToDecimal(level)
    ensures ParseInt(p[6..|p| - 2]) == Some(level)
  {
    var digits := IntToDecimal(level);
    var p := "Level " + digits + ": ";
    assert p[6..|p| - 2] == digits;
    IntToDecimalRoundTrip(level);
    p
  }

  /**
   * Reads the level and message back out of a line `debug` logged with a
   * level; `None` when the line does not start with a level prefix. The
   * console itself never parses its output: this parser exists only to
   * state what the prefixed line holds.
   */
  function ParseDebugLine(line: string): (r: Option<(int, string)>)
    ensures r.Some? ==> |r.value.1| <= |line| && line[|line| - |r.value.1|..] == r.value.1
  {
    if |line| < 6 || line[..6] != "Level " then None
    else
      var rest := line[6..];
      match IndexOf(rest, ':')
      case None => None
      case Some(k) =>
        if k + 1 < |rest| && rest[k + 1] == ' ' then
          match ParseInt(rest[..k])
          case None => None
          case Some(n) =>
            assert rest[k + 2..] == line[|line| - |rest[k + 2..]|..];
            Some((n, rest[k + 2..]))
        else
          None
  }

  /** The first `:` of a string is at `k` when `k` holds one and nothing before it does. */
  lemma FirstColonAt(rest: string, k: nat)
    requires k < |rest| && rest[k] == ':' && ':' !in rest[..k]
    ensures IndexOf(rest, ':') == Some(k)
  {
  }

  /** The level prefix reads back as the level, with the message intact after it. */
  lemma DebugLineRoundTrip(level: int, text: string)
    ensures ParseDebugLine(LevelPrefix(level) + text) == Some((level, text))
  {
    var p := LevelPrefix(level);
    var line := p + text;
    var rest := line[6..];
    var k := |p| - 8;
    assert line[..6] == p[..6];
    assert rest[..k] == p[6..|p| - 2];
    assert rest[k..k + 2] == ": ";
    assert rest[k + 2..] == text;
    FirstColonAt(rest, k);
  }

  /**
   * Every line `ParseDebugLine` accepts is the level prefix of the level it
   * reads followed by the message it reads: a level is read back only from
   * the digits `str()` writes, so no other spelling of the prefix parses.
   */
  lemma ParseDebugLineInverse(line: string)
    requires ParseDebugLine(line).Some?
    ensures line == LevelPrefix(ParseDebugLine(line).value.0) + ParseDebugLine(line).value.1
  {
    var rest := line[6..];
    var k := IndexOf(rest, ':').value;
    var n := ParseInt(rest[..k]).value;
    var t := rest[k + 2..];
    assert ParseDebugLine(line) == Some((n, t));
    ParseIntInverse(rest[..k]);
    var p := LevelPrefix(n);
    assert p == p[..6] + p[6..|p| - 2] + p[|p| - 2..];
    assert p == "Level " + rest[..k] + ": ";
    assert rest == rest[..k] + rest[k..k + 2] + t;
    assert rest[k..k + 2] == ": ";
    assert line == line[..6] + rest;
  }

  /**
   * `debug(text, level=level)`: the line logged, or `None` when the message is
   * suppressed. A logged line carries the text unchanged when no level is
   * given, and otherwise is `Level {str(level)}: ` before the text, which
   * reads back as exactly the level and the text.
   */
  function Debug(st: DebugState, text: string, level: Option<int>): (r: Option<string>)
    ensures r.Some? <==> DebuggingEnabled(st, level)
    ensures r.Some? && level.None? ==> r.value == text
    ensures r.Some? && level.Some? ==> ParseDebugLine(r.value) == Some((level.value, text))
    ensures r.Some? && level.Some? ==> r.value == "Level " + IntToDecimal(level.value) + ": " + text
  {
    if !DebuggingEnabled(st, level) then None
    else if level.Some? then
      DebugLineRoundTrip(level.value, text);
      Some(LevelPrefix(level.value) + text)
    else
      Some(text)
  }

  /** The console themes; `Custom` stands for any other theme object. */
  datatype Theme = Simple | SpringFlowers | Custom(id: nat)

  /** What `set_theme` is given: a theme name, or any other object, `None` included. */
  datatype ThemeArgument = ThemeName(name: string) | ThemeObject(theme: Option<Theme>)

  /** The normalised form `set_theme` compares a theme name by: `name.lower().strip()`. */
  function Normalise(name: string): string {
    Strip(Lower(name))
  }

  /**
   * `set_theme(theme)`: a name selects `Simple` or `SpringFlowers` when it
   * normalises to "simple" or "default", and any other name leaves the
   * current theme; a non-string argument is stored as it is.
   */
  function SetTheme(current: Option<Theme>, arg: ThemeArgument): (r: Option<Theme>)
    ensures arg.ThemeObject? ==> r == arg.theme
    ensures arg.ThemeName? && Normalise(arg.name) == "simple" ==> r == Some(Simple)
    ensures arg.ThemeName? && Normalise(arg.name) == "default" ==> r == Some(SpringFlowers)
    ensures arg.ThemeName? && Normalise(arg.name) != "simple" && Normalise(arg.name) != "default"
            ==> r == current
  {
    match arg
    case ThemeName(name) =>
      if Normalise(name) == "simple" then Some(Simple)
      else if Normalise(name) == "default" then Some(SpringFlowers)
      else current
    case ThemeObject(theme) => theme
  }

  /** The theme a name selects regardless of the current one, if any. */
  ghost function NamedTheme(name: string): Option<Theme> {
    if IsPaddedName(name, "simple") then Some(Simple)
    else if IsPaddedName(name, "default") then Some(SpringFlowers)
    else None
  }

  /**
   * A name selects a theme exactly when it is "simple" or "default" in any
   * letter case with optional surrounding whitespace; every other name keeps
   * the current theme.
   */
  lemma SetThemeByName(current: Option<Theme>, name: string)
    ensures SetTheme(current, ThemeName(name)) == (if NamedTheme(name).Some? then NamedTheme(name) else current)
  {
    assert IsPlainName("simple");
    assert IsPlainName("default");
    NormalisedEqualsIff(name, "simple");
    NormalisedEqualsIff(name, "default");
  }

  /** Setting the same theme twice has the effect of setting it once. */
  lemma SetThemeIdempotent(current: Option<Theme>, arg: ThemeArgument)
    ensures SetTheme(SetTheme(current, arg), arg) == SetTheme(current, arg)
  {
  }

  /**
   * `_get_theme()`: the stored theme, or `SpringFlowers` when none is stored,
   * which is then stored.
   */
  function GetTheme(stored: Option<Theme>): (r: (Theme, Option<Theme>))
    ensures r.1 == Some(r.0)
    ensures stored.Some? ==> r.0 == stored.value
    ensures stored.None? ==> r.0 == SpringFlowers
  {
    match stored
    case Some(t) => (t, stored)
    case None => (SpringFlowers, Some(SpringFlowers))
  }

  /**
   * The name "default" and a `None` theme object lead to the same theme in
   * use, `SpringFlowers`, whatever was set before.
   */
  lemma DefaultNameMatchesNoTheme(current: Option<Theme>)
    ensures GetTheme(SetTheme(current, ThemeName("default"))).0 == SpringFlowers
    ensures GetTheme(SetTheme(current, ThemeObject(None))).0 == SpringFlowers
  {
    assert IsPlainName("default");
    NormaliseOfPlainName("default");
  }
}
