/** The localization resolver (`localizedValue` in internal/ui/model.go):
    picks the text to show from a map of language code to text. */
module Localization {
  import opened Text

  /** The map holds a non-blank text under `code`, and `code` is not empty. */
  predicate HasText(values: map<string, string>, code: string) {
    code != "" && code in values && !Blank(values[code])
  }

  /** Some entry of the map is non-blank. */
  predicate AnyText(values: map<string, string>) {
    exists code :: code in values && !Blank(values[code])
  }

  /** What the resolver may return: the active code's text when it is
      non-blank; otherwise the fallback code's text when that is non-blank;
      otherwise any non-blank text of the map (Go leaves the map's iteration
      order unspecified); otherwise the empty string. */
  ghost predicate Resolved(values: map<string, string>, current: string, fallback: string, r: string) {
    if HasText(values, current) then r == values[current]
    else if HasText(values, fallback) then r == values[fallback]
    else if AnyText(values) then r in values.Values && !Blank(r)
    else r == ""
  }

  /** `localizedValue`, with the receiver's current and fallback language
      codes passed in. The last step scans the map in an unspecified order
      and stops at the first non-blank text. */
  method LocalizedValue(values: map<string, string>, current: string, fallback: string) returns (r: string)
    ensures Resolved(values, current, fallback, r)
    ensures r == "" || (r in values.Values && !Blank(r))
    ensures r == "" <==> !AnyText(values)
  {
    if |values| == 0 {
      return "";
    }
    if current != "" && current in values && !Blank(values[current]) {
      return values[current];
    }
    if fallback != "" && fallback in values && !Blank(values[fallback]) {
      return values[fallback];
    }
    var unvisited := values.Keys;
    while unvisited != {}
      invariant unvisited <= values.Keys
      invariant forall code :: code in values.Keys - unvisited ==> Blank(values[code])
      decreases unvisited
    {
      var code :| code in unvisited;
      if !Blank(values[code]) {
        return values[code];
      }
      unvisited := unvisited - {code};
    }
    return "";
  }
}
