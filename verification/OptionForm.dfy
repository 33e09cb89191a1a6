/** The options of the connection form: printed one `Key=Value` a line, and parsed from such lines. */
module OptionForm {
  import opened Common
  import opened Text
  import opened OptionText
  import opened SshOptions
  import opened SshOptionLists

  datatype FormError = MissingEquals(line: nat) | BadOption(refusal: Refusal, line: nat)

  function PrintLine(o: SshOption): string {
    o.key + "=" + o.value
  }

  function PrintLines(options: seq<SshOption>): seq<string> {
    seq(|options|, i requires 0 <= i < |options| => PrintLine(options[i]))
  }

  /** The text connectionFormValues shows. */
  function Print(options: seq<SshOption>): string {
    Join(PrintLines(options), '\n')
  }

  datatype LineMeaning = Blank | NoKey | Wrong(refusal: Refusal) | Fine(option: SshOption)

  function OptionMeaning(key: string, value: string): LineMeaning {
    match Validate(key, value)
    case Err(refusal) => Wrong(refusal)
    case Ok(option) => Fine(option)
  }

  function MeaningOf(raw: string): LineMeaning {
    TrimmedMeaning(Trim(raw))
  }

  function TrimmedMeaning(line: string): LineMeaning {
    var eq := IndexOf(line, '=');
    if line == "" then Blank
    else if eq == 0 || eq == |line| then NoKey
    else OptionMeaning(line[..eq], line[eq + 1..])
  }

  function Meanings(lines: seq<string>): seq<LineMeaning> {
    seq(|lines|, i requires 0 <= i < |lines| => MeaningOf(lines[i]))
  }

  function OptionsIn(ms: seq<LineMeaning>): seq<SshOption> {
    if ms == [] then []
    else OptionsIn(ms[..|ms| - 1]) + (if ms[|ms| - 1].Fine? then [ms[|ms| - 1].option] else [])
  }

  /** The result for the lines from i on, all before it being blank or fine. */
  function ParseFrom(ms: seq<LineMeaning>, i: nat): Result<seq<SshOption>, FormError>
    requires i <= |ms|
    decreases |ms| - i
  {
    if i == |ms| then Ok(OptionsIn(ms))
    else
      match ms[i]
      case NoKey => Err(MissingEquals(i + 1))
      case Wrong(refusal) => Err(BadOption(refusal, i + 1))
      case _ => ParseFrom(ms, i + 1)
  }

  function Parse(text: string): Result<seq<SshOption>, FormError> {
    ParseFrom(Meanings(Split(text, '\n')), 0)
  }

  /** What one more line adds to the result, or makes of it. */
  lemma NextLine(ms: seq<LineMeaning>, i: nat, options: seq<SshOption>)
    requires i < |ms| && options == OptionsIn(ms[..i])
    ensures OptionsIn(ms[..i + 1]) == if ms[i].Fine? then options + [ms[i].option] else options
    ensures ParseFrom(ms, i) ==
            if ms[i].NoKey? then Err(MissingEquals(i + 1))
            else if ms[i].Wrong? then Err(BadOption(ms[i].refusal, i + 1))
            else ParseFrom(ms, i + 1)
  {
    assert ms[..i + 1][..i] == ms[..i];
  }

  /** One line of the form. */
  method ParseLine(raw: string) returns (m: LineMeaning)
    ensures m == MeaningOf(raw)
  {
    var line := Trim(raw);
    if line == "" { return Blank; }
    var eq := IndexOf(line, '=');
    if eq == 0 || eq == |line| { return NoKey; }
    var result := ValidateSshOption(line[..eq], line[eq + 1..]);
    m := if result.Err? then Wrong(result.error) else Fine(result.value);
  }

  /** parseSshOptionsText. */
  method ParseSshOptionsText(text: string) returns (r: Result<seq<SshOption>, FormError>)
    ensures r == Parse(text)
  {
    var options: seq<SshOption> := [];
    var lines := Split(text, '\n');
    ghost var ms := Meanings(lines);
    for i := 0 to |lines|
      invariant options == OptionsIn(ms[..i])
      invariant Parse(text) == ParseFrom(ms, i)
    {
      NextLine(ms, i, options);
      var line := ParseLine(lines[i]);
      match line {
        case Blank =>
        case NoKey => return Err(MissingEquals(i + 1));
        case Wrong(refusal) => return Err(BadOption(refusal, i + 1));
        case Fine(option) => options := options + [option];
      }
    }
    assert ms[..|lines|] == ms;
    r := Ok(options);
  }

  /** The first bad line, counted from 1, is the one reported. */
  lemma {:induction false} FirstBadLine(ms: seq<LineMeaning>, i: nat, bad: nat)
    requires i <= bad < |ms| && (ms[bad].NoKey? || ms[bad].Wrong?)
    requires forall j :: i <= j < bad ==> ms[j].Blank? || ms[j].Fine?
    ensures ParseFrom(ms, i) == Err(if ms[bad].NoKey? then MissingEquals(bad + 1) else BadOption(ms[bad].refusal, bad + 1))
    decreases bad - i
  {
    if i < bad { FirstBadLine(ms, i + 1, bad); }
  }

  // ---- the round trip ----

  /** A line of two trimmed parts comes apart at its first equals sign. */
  lemma LineComesApart(key: string, value: string)
    requires key != "" && '=' !in key && Trimmed(key) && value != "" && Trimmed(value)
    ensures var line := key + "=" + value;
            Trim(line) == line && IndexOf(line, '=') == |key| && line[..|key|] == key && line[|key| + 1..] == value
  {
    var line := key + "=" + value;
    IndexAfter(key, value, '=');
    assert key + ['='] + value == line;
    assert line[0] == key[0] && line[|line| - 1] == value[|value| - 1];
    TrimKeepsTrimmed(line);
  }

  lemma CleanLine(o: SshOption)
    requires Clean(o)
    ensures MeaningOf(PrintLine(o)) == Fine(o)
    ensures '\n' !in PrintLine(o)
  {
    var k := CleanKey(o);
    assert o.key != "" && '=' !in o.key && '\n' !in o.key by { NameLetters(k); }
    assert Trimmed(o.key) by { NameIsCanonical(k); }
    assert o.value != "" && Trimmed(o.value) && '\n' !in o.value by {
      AcceptedChars(k, o.value);
      ValueCharsStay(o.value);
    }
    LineComesApart(o.key, o.value);
    CleanIsFixed(o);
  }

  lemma {:induction false} FineLines(ms: seq<LineMeaning>, options: seq<SshOption>)
    requires |ms| == |options| && forall i :: 0 <= i < |ms| ==> ms[i] == Fine(options[i])
    ensures OptionsIn(ms) == options
    decreases |options|
  {
    if options != [] {
      var n := |options| - 1;
      FineLines(ms[..n], options[..n]);
      assert options == options[..n] + [options[n]];
    }
  }

  lemma {:induction false} ParsesFine(ms: seq<LineMeaning>, i: nat)
    requires i <= |ms| && forall j :: i <= j < |ms| ==> ms[j].Fine?
    ensures ParseFrom(ms, i) == Ok(OptionsIn(ms))
    decreases |ms| - i
  {
    if i < |ms| { ParsesFine(ms, i + 1); }
  }

  lemma EmptyText()
    ensures Parse("") == Ok([])
  {
    var ms := Meanings(Split("", '\n'));
    assert Split("", '\n') == [""];
    assert ms == [Blank];
    assert OptionsIn(ms) == OptionsIn(ms[..0]) + [];
    assert ParseFrom(ms, 0) == ParseFrom(ms, 1);
  }

  /** Printing an accepted list and parsing the text gives the same list. */
  lemma ParsePrint(options: seq<SshOption>)
    requires AllClean(options)
    ensures Parse(Print(options)) == Ok(options)
  {
    var lines := PrintLines(options);
    var ms := Meanings(lines);
    forall i | 0 <= i < |options| ensures ms[i] == Fine(options[i]) && '\n' !in lines[i] {
      CleanLine(options[i]);
    }
    if options == [] {
      EmptyText();
    } else {
      SplitJoin(lines, '\n');
      ParsesFine(ms, 0);
      FineLines(ms, options);
    }
  }

  lemma FineOptionIsClean(key: string, value: string)
    requires OptionMeaning(key, value).Fine?
    ensures Clean(OptionMeaning(key, value).option)
  {
    ValidateIsIdempotent(key, value);
  }

  lemma FineParts(line: string) returns (key: string, value: string)
    requires TrimmedMeaning(line).Fine?
    ensures TrimmedMeaning(line) == OptionMeaning(key, value)
  {
    var eq := IndexOf(line, '=');
    key, value := line[..eq], line[eq + 1..];
  }

  lemma FineLine(line: string)
    requires TrimmedMeaning(line).Fine?
    ensures Clean(TrimmedMeaning(line).option)
  {
    var key, value := FineParts(line);
    FineOptionIsClean(key, value);
  }

  lemma {:induction false} ParsedClean(ms: seq<LineMeaning>)
    requires forall i :: 0 <= i < |ms| && ms[i].Fine? ==> Clean(ms[i].option)
    ensures AllClean(OptionsIn(ms))
    decreases |ms|
  {
    if ms != [] { ParsedClean(ms[..|ms| - 1]); }
  }

  lemma {:induction false} ParsedIsOptions(ms: seq<LineMeaning>, i: nat)
    requires i <= |ms| && ParseFrom(ms, i).Ok?
    ensures ParseFrom(ms, i).value == OptionsIn(ms)
    decreases |ms| - i
  {
    if i < |ms| { ParsedIsOptions(ms, i + 1); }
  }

  /** Whatever text the form accepts, showing the result and submitting it unchanged gives the same options. */
  lemma ReopenedFormIsStable(text: string)
    requires Parse(text).Ok?
    ensures AllClean(Parse(text).value)
    ensures Parse(Print(Parse(text).value)) == Parse(text)
    ensures ValidateAll(Some(AsEntries(Parse(text).value))) == Accepted(Parse(text).value)
  {
    var lines := Split(text, '\n');
    var ms := Meanings(lines);
    forall i | 0 <= i < |ms| && ms[i].Fine? ensures Clean(ms[i].option) { FineLine(Trim(lines[i])); }
    ParsedIsOptions(ms, 0);
    ParsedClean(ms);
    ParsePrint(OptionsIn(ms));
    ListIsIdempotent(OptionsIn(ms));
  }
}
