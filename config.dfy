/** The configuration schema and the checks `Load` applies once the YAML
    document has been parsed (internal/config/config.go). */
module Config {
  import opened Wrappers
  import opened Text

  /** An available language: its code and an optional display label
      (`label` is a Dafny keyword, so the field is `displayLabel`). */
  datatype Lang = Lang(code: string, displayLabel: string)

  /** A key-driven command, with its command, title and menu label per
      language code (the YAML `label` map is the field `menuLabel`). */
  datatype Layer = Layer(
    key: string,
    cmd: map<string, string>,
    title: map<string, string>,
    menuLabel: map<string, string>)

  datatype Config = Config(langs: seq<Lang>, layers: seq<Layer>)

  /** The three ways validation can fail, in the order they are checked. */
  datatype ConfigError = NoLayers | NoLangs | LangWithoutCode(index: nat)

  const IndexPrefix := "langue sans code a l'index "

  /** The text of the error `Load` returns; the index of a language without
      a code can be read back from it. */
  function Message(e: ConfigError): (text: string)
    ensures e.LangWithoutCode? ==>
      && |IndexPrefix| < |text| && text[..|IndexPrefix|] == IndexPrefix
      && (forall k :: |IndexPrefix| <= k < |text| ==> '0' <= text[k] <= '9')
      && DecimalValue(text[|IndexPrefix|..]) == e.index
      && (text[|IndexPrefix|] != '0' || e.index == 0)
  {
    match e
    case NoLayers => "aucun layer defini"
    case NoLangs => "aucune langue definie"
    case LangWithoutCode(i) =>
      var digits := NatToDecimal(i);
      DecimalRoundTrip(i);
      assert (IndexPrefix + digits)[|IndexPrefix|..] == digits;
      IndexPrefix + digits
  }

  /** Every language code is non-blank. */
  predicate AllCoded(langs: seq<Lang>) {
    forall i :: 0 <= i < |langs| ==> !Blank(langs[i].code)
  }

  /** A configuration that `Load` accepts. */
  predicate Valid(cfg: Config) {
    |cfg.layers| > 0 && |cfg.langs| > 0 && AllCoded(cfg.langs)
  }

  /** The scan over the languages from position `from`: the index of the
      first one whose code is blank, if any. */
  function FirstBlankCode(langs: seq<Lang>, from: nat): (r: Option<nat>)
    requires from <= |langs|
    ensures r.None? <==> forall i :: from <= i < |langs| ==> !Blank(langs[i].code)
    ensures r.Some? ==> from <= r.value < |langs| && Blank(langs[r.value].code)
    ensures r.Some? ==> forall i :: from <= i < r.value ==> !Blank(langs[i].code)
    decreases |langs| - from
  {
    if from == |langs| then None
    else if Blank(langs[from].code) then Some(from)
    else FirstBlankCode(langs, from + 1)
  }

  /** The validation of `Load` after parsing: no layers is reported first,
      then no languages, then the first language without a code. */
  function Validate(cfg: Config): (r: Result<Config, ConfigError>)
    ensures r.Success? <==> Valid(cfg)
    ensures r.Success? ==> r.value == cfg
    ensures |cfg.layers| == 0 ==> r == Failure(NoLayers)
    ensures |cfg.layers| > 0 && |cfg.langs| == 0 ==> r == Failure(NoLangs)
    ensures |cfg.layers| > 0 && |cfg.langs| > 0 && !AllCoded(cfg.langs) ==>
      r.Failure? && r.error.LangWithoutCode?
    ensures r.Failure? && r.error.LangWithoutCode? ==>
      && |cfg.layers| > 0
      && r.error.index < |cfg.langs|
      && Blank(cfg.langs[r.error.index].code)
      && (forall i :: 0 <= i < r.error.index ==> !Blank(cfg.langs[i].code))
  {
    if |cfg.layers| == 0 then Failure(NoLayers)
    else if |cfg.langs| == 0 then Failure(NoLangs)
    else match FirstBlankCode(cfg.langs, 0)
      case Some(i) => Failure(LangWithoutCode(i))
      case None => Success(cfg)
  }
}
