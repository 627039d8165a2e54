/**
 * Value normalisation: the join keys built from codes and names, the
 * removal of a leading numeric code from professional names, and the
 * cleanup of free text before it is written to a spreadsheet.
 */
module Normalizer {
  import opened Strings
  import opened Numerals
  import opened Cells

  // ---------------------------------------------------------------- join keys

  /** Code key, `astype(str).str.strip()`: trimmed, case kept. */
  function CodeKey(c: Cell): (k: string)
    ensures IsTrimmed(k)
  {
    Trim(AsText(c))
  }

  lemma LowerCharSpace(c: char)
    ensures IsSpace(LowerChar(c)) == IsSpace(c)
  {
  }

  /** Lower-casing keeps a trimmed text trimmed. */
  lemma LowerKeepsTrimmed(t: string)
    requires IsTrimmed(t)
    ensures IsTrimmed(Lower(t))
  {
    if t != [] {
      LowerCharSpace(t[0]);
      LowerCharSpace(t[|t| - 1]);
    }
  }

  /** Name key, `astype(str).str.strip().str.lower()`: trimmed and already lower-case. */
  function NameKey(c: Cell): (k: string)
    ensures IsTrimmed(k) && Lower(k) == k
  {
    var t := Trim(AsText(c));
    LowerKeepsTrimmed(t);
    LowerIdempotent(t);
    Lower(t)
  }

  /** Lower-casing commutes with `lstrip()`: it never turns a blank into a non-blank or back. */
  lemma {:induction false} TrimStartLower(s: string)
    ensures TrimStart(Lower(s)) == Lower(TrimStart(s))
    decreases |s|
  {
    if s != [] {
      LowerCharSpace(s[0]);
      assert Lower(s)[0] == LowerChar(s[0]);
      if IsSpace(s[0]) {
        assert Lower(s)[1..] == Lower(s[1..]);
        TrimStartLower(s[1..]);
      }
    }
  }

  /** Lower-casing commutes with `rstrip()`. */
  lemma {:induction false} TrimEndLower(s: string)
    ensures TrimEnd(Lower(s)) == Lower(TrimEnd(s))
    decreases |s|
  {
    if s != [] {
      var n := |s| - 1;
      LowerCharSpace(s[n]);
      assert Lower(s)[n] == LowerChar(s[n]);
      if IsSpace(s[n]) {
        assert Lower(s)[..n] == Lower(s[..n]);
        TrimEndLower(s[..n]);
      }
    }
  }

  /** Lower-casing commutes with `strip()`. */
  lemma TrimLower(s: string)
    ensures Trim(Lower(s)) == Lower(Trim(s))
  {
    TrimStartLower(s);
    TrimEndLower(TrimStart(s));
  }

  /** Blanks around a name do not change its key. */
  lemma NameKeyIgnoresBlanks(s: string)
    ensures NameKey(Text(Trim(s))) == NameKey(Text(s))
  {
    TrimIdempotent(s);
  }

  /** The case of a name does not change its key. */
  lemma NameKeyIgnoresCase(s: string)
    ensures NameKey(Text(Lower(s))) == NameKey(Text(s))
  {
    TrimLower(s);
    LowerIdempotent(Trim(s));
  }

  /** A worked example: "CONSULTA " and "consulta" share a key. */
  lemma NameKeyExample()
    ensures NameKey(Text("CONSULTA ")) == NameKey(Text("consulta"))
  {
    var a := "CONSULTA ";
    TrimStartStop(a);
    assert IsSpace(a[|a| - 1]);
    TrimEndStep(a);
    assert a[..|a| - 1] == "CONSULTA";
    TrimEndStop("CONSULTA");
    TrimStartStop("consulta");
    TrimEndStop("consulta");
    assert Lower("CONSULTA") == "consulta";
  }

  // ---------------------------------------------------------------- professional names

  /** The leading run of decimal digits removed. */
  function DropDigits(s: string): (r: string)
    ensures |r| <= |s| && r == s[|s| - |r|..]
    ensures r == [] || !IsDigit(r[0])
  {
    if s != [] && IsDigit(s[0]) then DropDigits(s[1..]) else s
  }

  /** The match of `^\d+\s*[-]?\s*` removed (nothing when the text does not start with a digit). */
  function StripCodePrefix(s: string): (r: string)
    ensures |r| <= |s|
    ensures s != [] && IsDigit(s[0]) ==> |r| < |s|
  {
    if s != [] && IsDigit(s[0]) then
      var a := TrimStart(DropDigits(s[1..]));
      TrimStart(if a != [] && a[0] == '-' then a[1..] else a)
    else s
  }

  /** `re.sub(r'^\d+\s*[-]?\s*', '', x).strip()` */
  function StripProfessionalPrefix(s: string): (r: string)
    ensures IsTrimmed(r) && |r| <= |s|
  {
    Trim(StripCodePrefix(s))
  }

  /** A name that does not start with a digit is only trimmed, even when blanks hide a code behind them. */
  lemma StripWithoutLeadingDigit(s: string)
    requires s == [] || !IsDigit(s[0])
    ensures StripProfessionalPrefix(s) == Trim(s)
  {
  }

  /** The strip leaves a name alone exactly when it is trimmed and does not start with a digit. */
  lemma StripFixedIff(s: string)
    ensures StripProfessionalPrefix(s) == s <==> IsTrimmed(s) && (s == [] || !IsDigit(s[0]))
  {
    if IsTrimmed(s) && (s == [] || !IsDigit(s[0])) {
      TrimFixedIff(s);
    }
  }

  /** Stripping twice is stripping once exactly when the first result does not start with a digit. */
  lemma StripTwiceIff(s: string)
    ensures var r := StripProfessionalPrefix(s);
      StripProfessionalPrefix(r) == r <==> (r == [] || !IsDigit(r[0]))
  {
    StripFixedIff(StripProfessionalPrefix(s));
  }

  /** Dropping a digit run of known length. */
  lemma {:induction false} DropDigitsRun(s: string, d: nat)
    requires d <= |s| && AllDigits(s[..d]) && (d == |s| || !IsDigit(s[d]))
    ensures DropDigits(s) == s[d..]
    decreases d
  {
    if d > 0 {
      assert IsDigit(s[..d][0]);
      assert s[1..][..d - 1] == s[1..d];
      DropDigitsRun(s[1..], d - 1);
    }
  }

  /** Dropping a blank run of known length. */
  lemma {:induction false} TrimStartRun(s: string, b: nat)
    requires b <= |s| && AllSpace(s[..b]) && (b == |s| || !IsSpace(s[b]))
    ensures TrimStart(s) == s[b..]
    decreases b
  {
    if b > 0 {
      assert IsSpace(s[..b][0]);
      assert s[1..][..b - 1] == s[1..b];
      TrimStartRun(s[1..], b - 1);
    }
  }

  /** A leading digit run stops at the first character that is not a digit. */
  lemma DropCode(code: string, tail: string)
    requires code != [] && AllDigits(code) && tail != [] && !IsDigit(tail[0])
    ensures IsDigit((code + tail)[0]) && DropDigits((code + tail)[1..]) == tail
  {
    var s := code + tail;
    assert IsDigit(code[0]);
    assert s[1..][..|code| - 1] == code[1..];
    assert s[1..][|code| - 1..] == tail;
    DropDigitsRun(s[1..], |code| - 1);
  }

  /** The two blank runs around an optional dash, after the digits. */
  function AfterDigits(d: string): string {
    var a := TrimStart(d);
    TrimStart(if a != [] && a[0] == '-' then a[1..] else a)
  }

  lemma StripCodeUnfold(s: string)
    requires s != [] && IsDigit(s[0])
    ensures StripCodePrefix(s) == AfterDigits(DropDigits(s[1..]))
  {
  }

  /** One leading blank before a non-blank goes. */
  lemma TrimOneBlank(rest: string)
    requires rest == [] || !IsSpace(rest[0])
    ensures TrimStart(" " + rest) == rest
  {
    var sp := " " + rest;
    assert sp[..1] == " " && sp[1..] == rest;
    TrimStartRun(sp, 1);
  }

  lemma AfterDigitsBlank(rest: string)
    requires rest != [] && !IsSpace(rest[0]) && rest[0] != '-'
    ensures AfterDigits(" " + rest) == rest
  {
    TrimOneBlank(rest);
    TrimStartStop(rest);
  }

  lemma AfterDigitsDash(rest: string)
    requires rest == [] || !IsSpace(rest[0])
    ensures AfterDigits(" - " + rest) == rest
  {
    var tail := " - " + rest;
    assert tail == " " + ("-" + (" " + rest));
    TrimOneBlank("-" + (" " + rest));
    assert ("-" + (" " + rest))[1..] == " " + rest;
    TrimOneBlank(rest);
  }

  /** The code, a blank, and the rest: the code and the blank go. */
  lemma StripCodeBlank(code: string, rest: string)
    requires code != [] && AllDigits(code) && rest != [] && !IsSpace(rest[0]) && rest[0] != '-'
    ensures StripCodePrefix(code + " " + rest) == rest
  {
    assert (" " + rest)[0] == ' ';
    DropCode(code, " " + rest);
    assert code + " " + rest == code + (" " + rest);
    StripCodeUnfold(code + (" " + rest));
    AfterDigitsBlank(rest);
  }

  /** The code, " - ", and the rest: the code and the separator go. */
  lemma StripCodeDash(code: string, rest: string)
    requires code != [] && AllDigits(code) && (rest == [] || !IsSpace(rest[0]))
    ensures StripCodePrefix(code + " - " + rest) == rest
  {
    assert (" - " + rest)[0] == ' ';
    DropCode(code, " - " + rest);
    assert code + " - " + rest == code + (" - " + rest);
    StripCodeUnfold(code + (" - " + rest));
    AfterDigitsDash(rest);
  }

  /** The whole cleanup of a code, " - " and a trimmed rest: only the rest is left. */
  lemma StripPrefixDash(code: string, rest: string)
    requires code != [] && AllDigits(code) && IsTrimmed(rest)
    ensures StripProfessionalPrefix(code + " - " + rest) == rest
  {
    StripCodeDash(code, rest);
    TrimFixedIff(rest);
  }

  /** The whole cleanup of a code, a blank and a trimmed rest: only the rest is left. */
  lemma StripPrefixBlank(code: string, rest: string)
    requires code != [] && AllDigits(code) && rest != [] && IsTrimmed(rest) && rest[0] != '-'
    ensures StripProfessionalPrefix(code + " " + rest) == rest
  {
    StripCodeBlank(code, rest);
    TrimFixedIff(rest);
  }

  /** One pass removes the leading code "12 - " and leaves the second code in front. */
  lemma StripFirstPass()
    ensures StripProfessionalPrefix("12 - 34 Ana") == "34 Ana"
  {
    assert "12 - 34 Ana" == "12" + " - " + "34 Ana";
    StripPrefixDash("12", "34 Ana");
  }

  /** A second pass removes the code the first one uncovered. */
  lemma StripSecondPass()
    ensures StripProfessionalPrefix("34 Ana") == "Ana"
  {
    assert "34 Ana" == "34" + " " + "Ana";
    StripPrefixBlank("34", "Ana");
  }

  /** The strip is not idempotent. */
  lemma StripNotIdempotent()
    ensures var once := StripProfessionalPrefix("12 - 34 Ana");
      StripProfessionalPrefix(once) != once
  {
    StripFirstPass();
    StripSecondPass();
  }

  // ---------------------------------------------------------------- export text

  /** The ASCII control characters removed before export: 0x00-0x08, 0x0B-0x0C, 0x0E-0x1F. */
  predicate IsControl(c: char) {
    ('\0' <= c <= '\U{8}') || ('\U{B}' <= c <= '\U{C}') || ('\U{E}' <= c <= '\U{1F}')
  }

  predicate NoControl(s: string) {
    forall i | 0 <= i < |s| :: !IsControl(s[i])
  }

  /** Spreadsheet cell limit kept below the format's maximum. */
  const CellLimit: nat := 32700

  /** `re.sub(r'[\x00-\x08\x0B-\x0C\x0E-\x1F]', '', x)` */
  function RemoveControls(s: string): (r: string)
    ensures NoControl(r) && |r| <= |s|
    ensures NoControl(s) ==> r == s
  {
    if s == [] then []
    else
      var rest := RemoveControls(s[1..]);
      assert NoControl(s) ==> NoControl(s[1..]);
      (if IsControl(s[0]) then [] else [s[0]]) + rest
  }

  /** A leading `=` is quoted so that a spreadsheet reads the cell as text, not a formula. */
  function QuoteFormula(s: string): string {
    if s != [] && s[0] == '=' then "'" + s else s
  }

  /**
   * Free-text cleanup of one export cell: controls removed, formula quoted,
   * cut to the cell limit.
   */
  function CleanText(s: string): (r: string)
    ensures NoControl(r)
    ensures r == [] || r[0] != '='
    ensures |r| <= CellLimit
  {
    var q := QuoteFormula(RemoveControls(s));
    if |q| <= CellLimit then q else q[..CellLimit]
  }

  /** Cleanup leaves exactly the safe texts alone. */
  lemma CleanTextFixedIff(s: string)
    ensures CleanText(s) == s <==> NoControl(s) && (s == [] || s[0] != '=') && |s| <= CellLimit
  {
  }

  lemma CleanTextIdempotent(s: string)
    ensures CleanText(CleanText(s)) == CleanText(s)
  {
    CleanTextFixedIff(CleanText(s));
  }

  /** Short control-free text that starts with `=` gains exactly one leading quote and loses nothing. */
  lemma CleanTextQuotesFormula(s: string)
    requires NoControl(s) && |s| < CellLimit && s != [] && s[0] == '='
    ensures CleanText(s) == "'" + s
  {
  }
}
