/**
 * The console styling helper: wraps a text in ANSI "select graphic
 * rendition" control sequences (SGR, section 8.3.117 of ECMA-48). A sequence
 * is ESC, '[', a numeric parameter and the final byte 'm'.
 *
 * Python passes the style names as keyword arguments whose values are never
 * read; a keyword is modelled as its name and a flag.
 */
module Color {
  import opened Basics

  /** The escape character, `\033`. */
  const Esc: char := '\U{1B}'

  /** The SGR sequence with parameter `param`. */
  function Sgr(param: string): (s: string)
    ensures |s| == |param| + 3
  {
    [Esc, '['] + param + "m"
  }

  /** The sequence that resets every attribute, written before and after the text. */
  const Reset: string := Sgr("0")

  /** The known styles and the SGR parameter of each: three attributes, eight foreground and eight background colours. */
  const StyleParams: map<string, string> := map[
    "bold" := "01", "underline" := "04", "italic" := "03",
    "fg_black" := "30", "fg_red" := "31", "fg_green" := "32", "fg_orange" := "33",
    "fg_blue" := "34", "fg_purple" := "35", "fg_cyan" := "36", "fg_light_grey" := "37",
    "bg_black" := "40", "bg_red" := "41", "bg_green" := "42", "bg_orange" := "43",
    "bg_blue" := "44", "bg_purple" := "45", "bg_cyan" := "46", "bg_light_grey" := "47"]

  /** Whether a string is an SGR parameter: decimal digits only. */
  predicate IsParam(s: string)
  {
    forall i :: 0 <= i < |s| ==> '0' <= s[i] <= '9'
  }

  /** Every known style's parameter is two decimal digits. */
  lemma StyleParamsWellFormed()
    ensures forall n :: n in StyleParams ==> |StyleParams[n]| == 2 && IsParam(StyleParams[n])
  {
  }

  /** A keyword argument: the style's name and the value passed with it. */
  datatype Keyword = Keyword(name: string, value: bool)

  /** The `KeyError` raised for a keyword that names no style. */
  datatype StyleError = UnknownStyle(name: string)

  /** The concatenation of a list of strings, in order. */
  function Join(ss: seq<string>): string
  {
    if |ss| == 0 then "" else ss[0] + Join(ss[1..])
  }

  /** Whether every keyword names a known style. */
  predicate AllKnown(kws: seq<Keyword>)
  {
    forall i :: 0 <= i < |kws| ==> kws[i].name in StyleParams
  }

  /** The position of the first keyword that names no style. */
  function FirstUnknown(kws: seq<Keyword>): (i: nat)
    requires !AllKnown(kws)
    ensures i < |kws| && kws[i].name !in StyleParams && AllKnown(kws[..i])
  {
    if kws[0].name !in StyleParams then 0
    else
      assert forall i :: 0 <= i < |kws[1..]| ==> kws[1..][i] == kws[i + 1];
      var j := FirstUnknown(kws[1..]);
      j + 1
  }

  /**
   * The style codes of the keywords, in the order given; the first keyword
   * that names no style raises and ends the loop.
   */
  function StyleCodes(kws: seq<Keyword>): (r: Result<seq<string>, StyleError>)
    ensures r.Ok? <==> AllKnown(kws)
    ensures r.Err? ==> r.error == UnknownStyle(kws[FirstUnknown(kws)].name)
    ensures r.Ok? ==> |r.value| == |kws| && forall i :: 0 <= i < |kws| ==> r.value[i] == Sgr(StyleParams[kws[i].name])
  {
    if |kws| == 0 then Ok([])
    else if kws[0].name !in StyleParams then Err(UnknownStyle(kws[0].name))
    else
      assert forall i :: 0 <= i < |kws[1..]| ==> kws[1..][i] == kws[i + 1];
      match StyleCodes(kws[1..])
      case Err(e) => Err(e)
      case Ok(cs) => Ok([Sgr(StyleParams[kws[0].name])] + cs)
  }

  /**
   * `color(text, **styles)`: the text behind the reset code and the style
   * codes, followed by the reset code; or the error for the first unknown
   * style.
   */
  function Styled(text: string, kws: seq<Keyword>): (r: Result<string, StyleError>)
    ensures r.Ok? <==> AllKnown(kws)
    ensures r.Err? ==> r.error == UnknownStyle(kws[FirstUnknown(kws)].name)
    ensures r.Ok? ==> |r.value| >= 2 * |Reset| + |text| && r.value[..|Reset|] == Reset && r.value[|r.value| - |Reset|..] == Reset
  {
    match StyleCodes(kws)
    case Err(e) => Err(e)
    case Ok(cs) =>
      var s := Reset + Join(cs) + text + Reset;
      assert s == Reset + (Join(cs) + text + Reset);
      assert s == (Reset + Join(cs) + text) + Reset;
      Ok(s)
  }

  /** Two known styles give the reset code, their two codes in order, the text and the reset code. */
  lemma StyledTwo(text: string, a: string, b: string, x: bool, y: bool)
    requires a in StyleParams && b in StyleParams
    ensures Styled(text, [Keyword(a, x), Keyword(b, y)]) == Ok(Reset + Sgr(StyleParams[a]) + Sgr(StyleParams[b]) + text + Reset)
  {
    var kws := [Keyword(a, x), Keyword(b, y)];
    var cs := [Sgr(StyleParams[a]), Sgr(StyleParams[b])];
    assert StyleCodes(kws).Ok?;
    assert StyleCodes(kws).value == cs;
    var A, B := Sgr(StyleParams[a]), Sgr(StyleParams[b]);
    assert cs[1..] == [Sgr(StyleParams[b])];
    assert cs[1..][1..] == [];
    assert Join(cs[1..]) == Sgr(StyleParams[b]) + "";
    assert Join(cs) == A + B;
    assert Reset + (A + B) + text + Reset == Reset + A + B + text + Reset;
  }

  /** `red`: bold, then the red foreground; it never fails. */
  function Red(text: string): (r: string)
    ensures r == Reset + Sgr("01") + Sgr("31") + text + Reset
  {
    StyledTwo(text, "bold", "fg_red", true, true);
    Styled(text, [Keyword("bold", true), Keyword("fg_red", true)]).value
  }

  /** `orange`: bold, then the orange foreground; it never fails. */
  function Orange(text: string): (r: string)
    ensures r == Reset + Sgr("01") + Sgr("33") + text + Reset
  {
    StyledTwo(text, "bold", "fg_orange", true, true);
    Styled(text, [Keyword("bold", true), Keyword("fg_orange", true)]).value
  }

  /** `green`: bold, then the green foreground; it never fails. */
  function Green(text: string): (r: string)
    ensures r == Reset + Sgr("01") + Sgr("32") + text + Reset
  {
    StyledTwo(text, "bold", "fg_green", true, true);
    Styled(text, [Keyword("bold", true), Keyword("fg_green", true)]).value
  }

  /** `cyan`: bold, then the cyan foreground; it never fails. */
  function Cyan(text: string): (r: string)
    ensures r == Reset + Sgr("01") + Sgr("36") + text + Reset
  {
    StyledTwo(text, "bold", "fg_cyan", true, true);
    Styled(text, [Keyword("bold", true), Keyword("fg_cyan", true)]).value
  }

  //////////////////////// What a terminal shows ////////////////////////

  /** The rest of a control sequence after its parameter bytes and final byte. */
  function AfterParams(s: string): (r: string)
    ensures |r| <= |s|
  {
    if |s| == 0 then ""
    else if '0' <= s[0] <= '9' || s[0] == ';' then AfterParams(s[1..])
    else s[1..]
  }

  /** The visible text: every `ESC [ ... m` control sequence dropped. */
  function Visible(s: string): (r: string)
    decreases |s|
  {
    if |s| == 0 then ""
    else if |s| >= 2 && s[0] == Esc && s[1] == '[' then Visible(AfterParams(s[2..]))
    else [s[0]] + Visible(s[1..])
  }

  lemma {:induction false} AfterParamsOfSgr(param: string, rest: string)
    requires IsParam(param)
    ensures AfterParams(param + "m" + rest) == rest
  {
    if |param| > 0 {
      assert (param + "m" + rest)[1..] == param[1..] + "m" + rest;
      AfterParamsOfSgr(param[1..], rest);
    } else {
      assert param + "m" + rest == ['m'] + rest;
    }
  }

  /** A control sequence shows nothing. */
  lemma SgrInvisible(param: string, rest: string)
    requires IsParam(param)
    ensures Visible(Sgr(param) + rest) == Visible(rest)
  {
    var s := Sgr(param) + rest;
    assert s[2..] == param + "m" + rest;
    AfterParamsOfSgr(param, rest);
  }

  /** Whether a string is one SGR control sequence. */
  predicate IsSgr(c: string)
  {
    |c| >= 3 && c == Sgr(c[2..|c| - 1]) && IsParam(c[2..|c| - 1])
  }

  /** Style codes show nothing. */
  lemma {:induction false} CodesInvisible(cs: seq<string>, rest: string)
    requires forall i :: 0 <= i < |cs| ==> IsSgr(cs[i])
    ensures Visible(Join(cs) + rest) == Visible(rest)
  {
    if |cs| == 0 {
      assert Join(cs) + rest == rest;
    } else {
      var p := cs[0][2..|cs[0]| - 1];
      assert IsSgr(cs[0]);
      assert Join(cs) + rest == Sgr(p) + (Join(cs[1..]) + rest);
      SgrInvisible(p, Join(cs[1..]) + rest);
      CodesInvisible(cs[1..], rest);
    }
  }

  /** Text without an escape character shows as itself. */
  lemma {:induction false} PlainVisible(text: string, rest: string)
    requires Esc !in text
    ensures Visible(text + rest) == text + Visible(rest)
  {
    if |text| == 0 {
      assert text + rest == rest;
    } else {
      assert text[0] in text;
      assert (text + rest)[1..] == text[1..] + rest;
      PlainVisible(text[1..], rest);
    }
  }

  /**
   * Styling changes only how a text looks: a terminal that interprets the
   * control sequences shows exactly the text, whatever the styles.
   */
  lemma StyledShowsText(text: string, kws: seq<Keyword>)
    requires Esc !in text
    requires AllKnown(kws)
    ensures Styled(text, kws).Ok? && Visible(Styled(text, kws).value) == text
  {
    var cs := StyleCodes(kws).value;
    StyleParamsWellFormed();
    forall i | 0 <= i < |cs| ensures IsSgr(cs[i]) {
      var p := StyleParams[kws[i].name];
      assert IsParam(p) && cs[i] == Sgr(p);
      assert cs[i][2..|cs[i]| - 1] == p;
    }
    assert IsParam("0");
    var s := Reset + Join(cs) + text + Reset;
    assert s == Sgr("0") + (Join(cs) + (text + Reset));
    SgrInvisible("0", Join(cs) + (text + Reset));
    CodesInvisible(cs, text + Reset);
    PlainVisible(text, Reset);
    SgrInvisible("0", "");
  }

  /** Five characters per style: each code is ESC, '[', two digits and 'm'. */
  lemma {:induction false} JoinLength(cs: seq<string>)
    requires forall i :: 0 <= i < |cs| ==> |cs[i]| == 5
    ensures |Join(cs)| == 5 * |cs|
  {
    if |cs| > 0 {
      JoinLength(cs[1..]);
    }
  }

  /** The styled text is the text plus eight characters of reset codes and five per style. */
  lemma StyledLength(text: string, kws: seq<Keyword>)
    requires Styled(text, kws).Ok?
    ensures |Styled(text, kws).value| == 8 + 5 * |kws| + |text|
  {
    var cs := StyleCodes(kws).value;
    StyleParamsWellFormed();
    JoinLength(cs);
  }

  /** The values passed with the keywords are never read: `bold=False` still makes the text bold. */
  lemma {:induction false} ValuesIgnored(text: string, kws: seq<Keyword>, kws': seq<Keyword>)
    requires |kws| == |kws'| && forall i :: 0 <= i < |kws| ==> kws[i].name == kws'[i].name
    ensures Styled(text, kws) == Styled(text, kws')
  {
    StyleCodesIgnoreValues(kws, kws');
  }

  lemma {:induction false} StyleCodesIgnoreValues(kws: seq<Keyword>, kws': seq<Keyword>)
    requires |kws| == |kws'| && forall i :: 0 <= i < |kws| ==> kws[i].name == kws'[i].name
    ensures StyleCodes(kws) == StyleCodes(kws')
  {
    if |kws| > 0 {
      StyleCodesIgnoreValues(kws[1..], kws'[1..]);
    }
  }

  /** A list of keywords names only known styles exactly when both its parts do. */
  lemma AllKnownConcat(a: seq<Keyword>, b: seq<Keyword>)
    ensures AllKnown(a + b) <==> AllKnown(a) && AllKnown(b)
  {
    if AllKnown(a + b) {
      forall i | 0 <= i < |a| ensures a[i].name in StyleParams {
        assert (a + b)[i] == a[i];
      }
      forall i | 0 <= i < |b| ensures b[i].name in StyleParams {
        assert (a + b)[|a| + i] == b[i];
      }
    }
  }

  /** Looking up a known keyword first puts its code before the codes of the rest. */
  lemma StyleCodesCons(k: Keyword, rest: seq<Keyword>)
    requires k.name in StyleParams && AllKnown(rest)
    ensures StyleCodes([k] + rest) == Ok([Sgr(StyleParams[k.name])] + StyleCodes(rest).value)
  {
    assert ([k] + rest)[1..] == rest;
  }

  /** Sequence concatenation regrouped, kept apart so that proofs about codes need not search for it. */
  lemma Associative<T>(x: seq<T>, y: seq<T>, z: seq<T>)
    ensures x + (y + z) == (x + y) + z
  {
  }

  /** Style codes appear in keyword order: styling with `a` then `b` puts `a`'s codes first. */
  lemma {:induction false} StyleCodesInOrder(a: seq<Keyword>, b: seq<Keyword>)
    requires AllKnown(a) && AllKnown(b)
    ensures StyleCodes(a + b) == Ok(StyleCodes(a).value + StyleCodes(b).value)
  {
    if |a| == 0 {
      assert a + b == b;
      assert StyleCodes(a).value + StyleCodes(b).value == StyleCodes(b).value;
    } else {
      var rest := a[1..];
      assert a == [a[0]] + rest;
      AllKnownConcat([a[0]], rest);
      StyleCodesInOrder(rest, b);
      InOrderStep(a[0], rest, b);
    }
  }

  /** The induction step of `StyleCodesInOrder`: one known keyword moved from `a` to the front. */
  lemma InOrderStep(k: Keyword, rest: seq<Keyword>, b: seq<Keyword>)
    requires k.name in StyleParams && AllKnown(rest) && AllKnown(b)
    requires StyleCodes(rest + b) == Ok(StyleCodes(rest).value + StyleCodes(b).value)
    ensures StyleCodes([k] + rest + b) == Ok(StyleCodes([k] + rest).value + StyleCodes(b).value)
  {
    AllKnownConcat(rest, b);
    assert [k] + rest + b == [k] + (rest + b);
    StyleCodesCons(k, rest);
    StyleCodesCons(k, rest + b);
    Associative([Sgr(StyleParams[k.name])], StyleCodes(rest).value, StyleCodes(b).value);
  }
}
