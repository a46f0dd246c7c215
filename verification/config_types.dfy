/** The records of the two configuration documents after parsing
    (src/config.rs): monitors, profiles, and the untagged scalar values
    that profile options and environment entries hold. */
module ConfigTypes {
  import opened Wrappers
  import opened Text

  /** Rust's `u32`, the type of a monitor's dimensions and refresh rate. */
  type u32 = x: int | 0 <= x < 0x1_0000_0000

  /** Rust's `i64`, the type of an integer option or environment value. */
  type i64 = x: int | -0x8000_0000_0000_0000 <= x < 0x8000_0000_0000_0000

  /** A display and its capabilities (`MonitorDef`). */
  datatype MonitorDef = MonitorDef(
    width: u32,
    height: u32,
    refreshRate: u32,
    vrr: bool,
    hdr: bool,
    primary: bool)

  /** The value of a gamescope option: a flag, a number or a word. */
  datatype OptionValue = Bool(b: bool) | Int(n: i64) | String(s: string)

  /** The value of an environment variable as written in a profile. */
  datatype EnvValue = Int(n: i64) | String(s: string)

  /** A named launch configuration (`ProfileDef`). A missing `binary` is
      filled in with `DefaultBinary` by the parser. */
  datatype ProfileDef = ProfileDef(
    monitor: Option<string>,
    binary: string,
    useHdr: Option<bool>,
    useWsi: Option<bool>,
    options: map<string, OptionValue>,
    environment: map<string, EnvValue>,
    unset: seq<string>)

  const DefaultBinary: string := "gamescope"

  /** `Display` for `OptionValue`: `true`/`false`, a decimal number, or the
      word itself. */
  function OptionText(v: OptionValue): (text: string)
    ensures v.Bool? ==> (text == "true" || text == "false") && (text == "true" <==> v.b)
    ensures v.Int? ==> IsNumeral(text) && ParseInt(text) == v.n
    ensures v.String? ==> text == v.s
  {
    match v
    case Bool(b) => BoolToString(b)
    case Int(n) => ParseIntToString(n); IntToString(n)
    case String(s) => s
  }

  /** `Display` for `EnvValue`. */
  function EnvText(v: EnvValue): (text: string)
    ensures v.Int? ==> IsNumeral(text) && ParseInt(text) == v.n
    ensures v.String? ==> text == v.s
  {
    match v
    case Int(n) => ParseIntToString(n); IntToString(n)
    case String(s) => s
  }

  /** A word that is neither a boolean nor a numeral displays as itself only
      when it is that word: no flag and no number displays as it. */
  lemma OptionTextIsWord(v: OptionValue, w: string)
    requires w != "true" && w != "false" && !IsNumeral(w)
    ensures OptionText(v) == w <==> v == OptionValue.String(w)
  {
  }

  /** Different integers display differently, as options and as
      environment values. */
  lemma IntTextInjective(m: i64, n: i64)
    ensures OptionText(OptionValue.Int(m)) == OptionText(OptionValue.Int(n)) ==> m == n
    ensures EnvText(EnvValue.Int(m)) == EnvText(EnvValue.Int(n)) ==> m == n
  {
    ParseIntToString(m);
    ParseIntToString(n);
  }
}
