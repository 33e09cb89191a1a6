/** The shell-style tokenizer of command lines: its loop, and what it reads in any text. */
module Tokenizer {
  import opened Common
  import opened Text

  datatype TokenError = UnclosedQuote

  // ---- what one character does ----

  /**
   The scanner between two characters. `pending` is set after a backslash that escapes
   whatever comes next; if nothing comes, the backslash stands for itself.
   */
  datatype Scan = Scan(tokens: seq<string>, current: string, hasToken: bool, quote: Option<char>, pending: bool)

  const START: Scan := Scan([], "", false, None, false)

  predicate IsQuote(c: char) {
    c == '"' || c == '\''
  }

  function Feed(s: Scan, c: char): Scan {
    if s.pending then s.(current := s.current + [c], pending := false)
    else if s.quote.Some? then
      if c == '\\' && s.quote == Some('"') then s.(pending := true)
      else if s.quote == Some(c) then s.(quote := None)
      else s.(current := s.current + [c])
    else if IsQuote(c) then s.(quote := Some(c), hasToken := true)
    else if c == '\\' then s.(pending := true, hasToken := true)
    else if IsSpace(c) then
      if s.hasToken then Scan(s.tokens + [s.current], "", false, None, false) else s
    else s.(current := s.current + [c], hasToken := true)
  }

  function FeedAll(s: Scan, text: string): Scan {
    if text == "" then s else Feed(FeedAll(s, text[..|text| - 1]), text[|text| - 1])
  }

  /** A backslash that escaped nothing is an ordinary character. */
  function Settled(s: Scan): Scan {
    if s.pending then s.(current := s.current + "\\", pending := false) else s
  }

  function Finish(s: Scan): Result<seq<string>, TokenError> {
    var t := Settled(s);
    if t.quote.Some? then Err(UnclosedQuote) else Ok(t.tokens + (if t.hasToken then [t.current] else []))
  }

  function Tokenize(text: string): Result<seq<string>, TokenError> {
    Finish(FeedAll(START, text))
  }

  /** Outside a token nothing is collected. */
  lemma {:induction false} NothingCollected(text: string)
    ensures var s := FeedAll(START, text);
            !s.hasToken ==> s.current == "" && s.quote.None? && !s.pending
    decreases |text|
  {
    if text != "" {
      NothingCollected(text[..|text| - 1]);
    }
  }

  lemma FeedPair(text: string, i: nat)
    requires i + 1 < |text|
    ensures FeedAll(START, text[..i + 2]) == Feed(Feed(FeedAll(START, text[..i]), text[i]), text[i + 1])
  {
    FeedNext(text, i);
    FeedNext(text, i + 1);
  }

  lemma FeedNext(text: string, i: nat)
    requires i < |text|
    ensures FeedAll(START, text[..i + 1]) == Feed(FeedAll(START, text[..i]), text[i])
  {
    assert text[..i + 1][..i] == text[..i];
  }

  /** tokenizeCommand. */
  method TokenizeCommand(command: string) returns (r: Result<seq<string>, TokenError>)
    ensures r == Tokenize(command)
  {
    var tokens: seq<string>, current, hasToken, quote: Option<char> := [], "", false, None;
    var i := 0;
    while i < |command|
      invariant i <= |command|
      invariant Scan(tokens, current, hasToken, quote, false) == Settled(FeedAll(START, command[..i]))
      invariant i < |command| ==> !FeedAll(START, command[..i]).pending
    {
      var ch := command[i];
      FeedNext(command, i);
      if i + 1 < |command| { FeedPair(command, i); }
      NothingCollected(command[..i]);
      if quote.Some? {
        if ch == '\\' && quote == Some('"') && i + 1 < |command| {
          current := current + [command[i + 1]];
          i := i + 2;
          continue;
        }
        if quote == Some(ch) { quote := None; } else { current := current + [ch]; }
      } else if ch == '"' || ch == '\'' {
        quote := Some(ch);
        hasToken := true;
      } else if ch == '\\' && i + 1 < |command| {
        current := current + [command[i + 1]];
        hasToken := true;
        i := i + 2;
        continue;
      } else if IsSpace(ch) {
        if hasToken || |current| > 0 {
          tokens, current, hasToken := tokens + [current], "", false;
        }
      } else {
        current := current + [ch];
        hasToken := true;
      }
      i := i + 1;
    }
    assert command[..|command|] == command;
    NothingCollected(command);
    if quote.Some? { return Err(UnclosedQuote); }
    ghost var s := Settled(FeedAll(START, command));
    assert s.tokens + [] == s.tokens;
    if hasToken || |current| > 0 { tokens := tokens + [current]; }
    r := Ok(tokens);
  }

  // ---- texts one after the other ----

  lemma {:induction false} FeedConcat(s: Scan, a: string, b: string)
    ensures FeedAll(s, a + b) == FeedAll(FeedAll(s, a), b)
    decreases |b|
  {
    if b == "" {
      assert a + b == a;
    } else {
      assert (a + b)[..|a + b| - 1] == a + b[..|b| - 1];
      FeedConcat(s, a, b[..|b| - 1]);
    }
  }

  /** Finished tokens are never looked at again. */
  lemma {:induction false} TokensOnlyGrow(s: Scan, done: seq<string>, text: string)
    ensures var t := FeedAll(s, text);
            FeedAll(s.(tokens := done + s.tokens), text) == t.(tokens := done + t.tokens)
    decreases |text|
  {
    if text != "" {
      TokensOnlyGrow(s, done, text[..|text| - 1]);
      var t := FeedAll(s, text[..|text| - 1]);
      assert done + (t.tokens + [t.current]) == done + t.tokens + [t.current];
    }
  }

  predicate EndsClean(a: string) {
    FeedAll(START, a).quote.None? && !FeedAll(START, a).pending
  }

  function Joined(a: Result<seq<string>, TokenError>, b: Result<seq<string>, TokenError>): Result<seq<string>, TokenError> {
    match (a, b)
    case (Ok(x), Ok(y)) => Ok(x + y)
    case (Err(e), _) => Err(e)
    case (_, Err(e)) => Err(e)
  }

  lemma FinishAfter(done: seq<string>, s: Scan)
    ensures Finish(s.(tokens := done + s.tokens)) == Joined(Ok(done), Finish(s))
  {
    var t := Settled(s);
    assert done + t.tokens + [t.current] == done + (t.tokens + [t.current]);
    assert done + t.tokens + [] == done + (t.tokens + []);
  }

  lemma EmptyText()
    ensures Tokenize("") == Ok([])
  {
    assert FeedAll(START, "") == START;
    assert START.tokens + [] == [];
  }

  /** A space after a scanner that is outside quotes ends the token, if there is one. */
  lemma SpaceEnds(s: Scan, space: char)
    requires Unquoted(s) && IsSpace(space) && (!s.hasToken ==> s.current == "")
    ensures Finish(s).Ok? && Feed(s, space) == START.(tokens := Finish(s).value)
  {
    assert s.tokens + [] == s.tokens;
  }

  lemma AfterSpace(a: string, space: char)
    requires EndsClean(a) && IsSpace(space)
    ensures Tokenize(a).Ok? && FeedAll(START, a + [space]) == START.(tokens := Tokenize(a).value)
  {
    var s := FeedAll(START, a);
    FeedConcat(START, a, [space]);
    FeedOne(s, space);
    NothingCollected(a);
    SpaceEnds(s, space);
  }

  /** A text that ends outside quotes, with no backslash left over, can be continued after a space. */
  lemma CleanConcat(a: string, space: char, b: string)
    requires EndsClean(a) && IsSpace(space)
    ensures Tokenize(a + [space] + b) == Joined(Tokenize(a), Tokenize(b))
  {
    AfterSpace(a, space);
    FeedConcat(START, a + [space], b);
    var done := Tokenize(a).value;
    assert START.(tokens := done + START.tokens) == START.(tokens := done);
    TokensOnlyGrow(START, done, b);
    FinishAfter(done, FeedAll(START, b));
  }

  /** Of the accepted texts exactly those without a backslash left over can be continued so. */
  lemma ConcatExactly(a: string, space: char)
    requires Tokenize(a).Ok? && IsSpace(space)
    ensures (forall b :: Tokenize(a + [space] + b) == Joined(Tokenize(a), Tokenize(b))) <==> EndsClean(a)
  {
    if EndsClean(a) {
      forall b ensures Tokenize(a + [space] + b) == Joined(Tokenize(a), Tokenize(b)) {
        CleanConcat(a, space, b);
      }
    } else {
      var s := FeedAll(START, a);
      NothingCollected(a);
      FeedConcat(START, a, [space]);
      assert [space][..0] == "";
      assert a + [space] + "" == a + [space];
      assert Tokenize(a + [space]) == Ok(s.tokens + [s.current + [space]]);
      EmptyText();
      assert s.tokens + [s.current + "\\"] + [] == s.tokens + [s.current + "\\"];
      assert Joined(Tokenize(a), Tokenize("")) == Ok(s.tokens + [s.current + "\\"]);
      var x, y := s.tokens + [s.current + [space]], s.tokens + [s.current + "\\"];
      assert x[|s.tokens|][|s.current|] != y[|s.tokens|][|s.current|];
      assert Tokenize(a + [space] + "") != Joined(Tokenize(a), Tokenize(""));
    }
  }

  // ---- every way to write a list of words ----

  /** One piece of a word: a plain character, an escaped one, or a quoted stretch. */
  datatype Piece =
    | Bare(c: char)
    | Escaped(c: char)
    | SingleQuoted(body: string)
    | DoubleQuoted(inner: seq<Inner>)

  datatype Inner = Raw(c: char) | Escape(c: char)

  predicate InnerOk(i: Inner) {
    i.Raw? ==> i.c != '"' && i.c != '\\'
  }

  predicate PieceOk(p: Piece) {
    match p
    case Bare(c) => !IsQuote(c) && c != '\\' && !IsSpace(c)
    case Escaped(_) => true
    case SingleQuoted(body) => '\'' !in body
    case DoubleQuoted(inner) => forall i :: i in inner ==> InnerOk(i)
  }

  predicate WordOk(w: seq<Piece>) {
    w != [] && forall p :: p in w ==> PieceOk(p)
  }

  function InnerText(inner: seq<Inner>): string {
    if inner == [] then ""
    else
      var last := inner[|inner| - 1];
      InnerText(inner[..|inner| - 1]) + (if last.Raw? then [last.c] else ['\\', last.c])
  }

  function InnerMeaning(inner: seq<Inner>): string {
    if inner == [] then "" else InnerMeaning(inner[..|inner| - 1]) + [inner[|inner| - 1].c]
  }

  function PieceText(p: Piece): string {
    match p
    case Bare(c) => [c]
    case Escaped(c) => ['\\', c]
    case SingleQuoted(body) => "'" + body + "'"
    case DoubleQuoted(inner) => "\"" + InnerText(inner) + "\""
  }

  function PieceMeaning(p: Piece): string {
    match p
    case Bare(c) => [c]
    case Escaped(c) => [c]
    case SingleQuoted(body) => body
    case DoubleQuoted(inner) => InnerMeaning(inner)
  }

  function WordText(w: seq<Piece>): string {
    if w == [] then "" else WordText(w[..|w| - 1]) + PieceText(w[|w| - 1])
  }

  function WordMeaning(w: seq<Piece>): string {
    if w == [] then "" else WordMeaning(w[..|w| - 1]) + PieceMeaning(w[|w| - 1])
  }

  /** A written word and the white space behind it. */
  datatype Written = Written(word: seq<Piece>, gap: string)

  /** Words are well written and kept apart; the last one may end the text. */
  predicate LineOk(line: seq<Written>) {
    && (forall i :: 0 <= i < |line| ==> WordOk(line[i].word) && AllSpace(line[i].gap))
    && forall i :: 0 <= i < |line| - 1 ==> line[i].gap != ""
  }

  function LineText(line: seq<Written>): string {
    if line == [] then ""
    else LineText(line[..|line| - 1]) + WordText(line[|line| - 1].word) + line[|line| - 1].gap
  }

  function LineMeaning(line: seq<Written>): seq<string> {
    if line == [] then [] else LineMeaning(line[..|line| - 1]) + [WordMeaning(line[|line| - 1].word)]
  }

  lemma {:induction false} SingleRead(s: Scan, body: string)
    requires s.quote == Some('\'') && !s.pending && '\'' !in body
    ensures FeedAll(s, body) == s.(current := s.current + body)
    decreases |body|
  {
    if body == "" {
      assert s.current + body == s.current;
    } else {
      var n := |body| - 1;
      SingleRead(s, body[..n]);
      assert body == body[..n] + [body[n]];
      assert s.current + body[..n] + [body[n]] == s.current + body;
    }
  }

  lemma {:induction false} InnerRead(s: Scan, inner: seq<Inner>)
    requires s.quote == Some('"') && !s.pending && forall i :: i in inner ==> InnerOk(i)
    ensures FeedAll(s, InnerText(inner)) == s.(current := s.current + InnerMeaning(inner))
    decreases |inner|
  {
    if inner == [] {
      assert s.current + "" == s.current;
    } else {
      var n := |inner| - 1;
      var last := inner[n];
      InnerRead(s, inner[..n]);
      var t := s.(current := s.current + InnerMeaning(inner[..n]));
      assert t.current + [last.c] == s.current + InnerMeaning(inner);
      assert InnerOk(last);
      FeedConcat(s, InnerText(inner[..n]), if last.Raw? then [last.c] else ['\\', last.c]);
      FeedOne(t, last.c);
      FeedTwo(t, '\\', last.c);
    }
  }

  lemma FeedOne(s: Scan, c: char)
    ensures FeedAll(s, [c]) == Feed(s, c)
  {
    assert [c][..0] == "";
  }

  lemma FeedTwo(s: Scan, c: char, d: char)
    ensures FeedAll(s, [c, d]) == Feed(Feed(s, c), d)
  {
    assert [c, d] == [c] + [d];
    FeedConcat(s, [c], [d]);
    FeedOne(s, c);
    FeedOne(Feed(s, c), d);
  }

  predicate Unquoted(s: Scan) {
    s.quote.None? && !s.pending
  }

  function Grown(s: Scan, more: string): Scan {
    s.(current := s.current + more, hasToken := true)
  }

  lemma QuotedRead(s: Scan, q: char, body: string, meaning: string)
    requires Unquoted(s) && IsQuote(q)
    requires var t := s.(quote := Some(q), hasToken := true); FeedAll(t, body) == t.(current := t.current + meaning)
    ensures FeedAll(s, [q] + body + [q]) == Grown(s, meaning)
  {
    FeedConcat(s, [q] + body, [q]);
    FeedConcat(s, [q], body);
    FeedOne(s, q);
    FeedOne(FeedAll(s, [q] + body), q);
  }

  /** A piece adds its meaning to the word being read. */
  lemma PieceRead(s: Scan, p: Piece)
    requires Unquoted(s) && PieceOk(p)
    ensures FeedAll(s, PieceText(p)) == Grown(s, PieceMeaning(p))
  {
    match p
    case Bare(c) => FeedOne(s, c);
    case Escaped(c) => FeedTwo(s, '\\', c);
    case SingleQuoted(body) =>
      SingleRead(s.(quote := Some('\''), hasToken := true), body);
      QuotedRead(s, '\'', body, body);
    case DoubleQuoted(inner) =>
      InnerRead(s.(quote := Some('"'), hasToken := true), inner);
      QuotedRead(s, '"', InnerText(inner), InnerMeaning(inner));
  }

  lemma GrownTwice(s: Scan, a: string, b: string)
    ensures Grown(Grown(s, a), b) == Grown(s, a + b)
  {
    assert s.current + a + b == s.current + (a + b);
  }

  lemma {:induction false} WordRead(s: Scan, w: seq<Piece>)
    requires Unquoted(s) && WordOk(w)
    ensures FeedAll(s, WordText(w)) == Grown(s, WordMeaning(w))
    decreases |w|
  {
    var n := |w| - 1;
    var before, last := w[..n], w[n];
    FeedConcat(s, WordText(before), PieceText(last));
    if n > 0 {
      WordRead(s, before);
      PieceRead(Grown(s, WordMeaning(before)), last);
      GrownTwice(s, WordMeaning(before), PieceMeaning(last));
    } else {
      PieceRead(s, last);
      assert WordMeaning(w) == PieceMeaning(last);
    }
  }

  /** The first space of a gap ends the word, the others do nothing. */
  lemma {:induction false} GapRead(s: Scan, gap: string)
    requires Unquoted(s) && AllSpace(gap) && gap != ""
    requires !s.hasToken ==> s.current == ""
    ensures FeedAll(s, gap) == Scan(if s.hasToken then s.tokens + [s.current] else s.tokens, "", false, None, false)
    decreases |gap|
  {
    var n := |gap| - 1;
    assert IsSpace(gap[n]);
    if n > 0 {
      GapRead(s, gap[..n]);
    } else {
      assert gap[..n] == "";
    }
  }

  /** The scanner after a whole line. */
  function AfterLine(line: seq<Written>): Scan {
    if line == [] then START
    else
      var n := |line| - 1;
      if line[n].gap != "" then START.(tokens := LineMeaning(line))
      else Scan(LineMeaning(line[..n]), WordMeaning(line[n].word), true, None, false)
  }

  lemma WrittenRead(done: seq<string>, w: Written)
    requires WordOk(w.word) && AllSpace(w.gap)
    ensures FeedAll(START.(tokens := done), WordText(w.word) + w.gap) ==
            if w.gap != "" then START.(tokens := done + [WordMeaning(w.word)])
            else Scan(done, WordMeaning(w.word), true, None, false)
  {
    var s := START.(tokens := done);
    FeedConcat(s, WordText(w.word), w.gap);
    WordRead(s, w.word);
    assert s.current + WordMeaning(w.word) == WordMeaning(w.word);
    if w.gap != "" { GapRead(Grown(s, WordMeaning(w.word)), w.gap); }
  }

  lemma OneMoreRead(before: seq<Written>, w: Written, front: string)
    requires WordOk(w.word) && AllSpace(w.gap)
    requires before == [] || before[|before| - 1].gap != ""
    requires FeedAll(START, front) == AfterLine(before)
    ensures FeedAll(START, front + (WordText(w.word) + w.gap)) == AfterLine(before + [w])
  {
    assert AfterLine(before) == START.(tokens := LineMeaning(before));
    WrittenRead(LineMeaning(before), w);
    FeedConcat(START, front, WordText(w.word) + w.gap);
    assert (before + [w])[..|before|] == before;
  }

  lemma LineParts(line: seq<Written>)
    requires LineOk(line) && line != []
    ensures var before, last := line[..|line| - 1], line[|line| - 1];
            && LineOk(before) && WordOk(last.word) && AllSpace(last.gap) && line == before + [last]
            && (before == [] || before[|before| - 1].gap != "")
  {
    var before := line[..|line| - 1];
    forall i | 0 <= i < |before| ensures WordOk(before[i].word) && AllSpace(before[i].gap) && before[i].gap != "" {
      assert before[i] == line[i];
    }
  }

  lemma LineTextOf(before: seq<Written>, last: Written)
    ensures LineText(before + [last]) == LineText(before) + (WordText(last.word) + last.gap)
  {
    LineGrows(before, last);
    Regrouped(LineText(before), WordText(last.word), last.gap);
  }

  lemma {:induction false} LineRead(line: seq<Written>)
    requires LineOk(line)
    ensures FeedAll(START, LineText(line)) == AfterLine(line)
    decreases |line|
  {
    if line == [] {
      assert FeedAll(START, "") == START;
    } else {
      var before, last := line[..|line| - 1], line[|line| - 1];
      var front := LineText(before);
      LineParts(line);
      LineTextOf(before, last);
      LineRead(before);
      OneMoreRead(before, last, front);
    }
  }

  /** However the words are written - plain, escaped, quoted either way, in any mixture - they are read back. */
  lemma TokenizeReadsEveryWriting(lead: string, line: seq<Written>)
    requires AllSpace(lead) && LineOk(line)
    ensures Tokenize(lead + LineText(line)) == Ok(LineMeaning(line))
  {
    LineRead(line);
    FeedConcat(START, lead, LineText(line));
    if lead != "" { GapRead(START, lead); }
    assert FeedAll(START, lead + LineText(line)) == AfterLine(line);
    LineFinishes(line);
  }

  lemma LineFinishes(line: seq<Written>)
    ensures Finish(AfterLine(line)) == Ok(LineMeaning(line))
  {
    assert LineMeaning(line) + [] == LineMeaning(line);
  }

  // ---- every accepted text is a writing ----

  datatype Mode = Outside | AfterSlash | InSingle(body: string) | InDouble(inner: seq<Inner>) | InDoubleSlash(inner: seq<Inner>)

  /** A text read so far: finished words with their gaps, the pieces of the word being read, and the piece being read. */
  datatype Layout = Layout(lead: string, line: seq<Written>, word: seq<Piece>, mode: Mode)

  function ModeText(m: Mode): string {
    match m
    case Outside => ""
    case AfterSlash => "\\"
    case InSingle(body) => "'" + body
    case InDouble(inner) => "\"" + InnerText(inner)
    case InDoubleSlash(inner) => "\"" + InnerText(inner) + "\\"
  }

  function LayoutText(l: Layout): string {
    l.lead + LineText(l.line) + WordText(l.word) + ModeText(l.mode)
  }

  predicate ModeOk(m: Mode) {
    match m
    case Outside | AfterSlash => true
    case InSingle(body) => '\'' !in body
    case InDouble(inner) => forall i :: i in inner ==> InnerOk(i)
    case InDoubleSlash(inner) => forall i :: i in inner ==> InnerOk(i)
  }

  predicate LayoutOk(l: Layout) {
    && AllSpace(l.lead)
    && (forall i :: 0 <= i < |l.line| ==> WordOk(l.line[i].word) && AllSpace(l.line[i].gap) && l.line[i].gap != "")
    && (forall p :: p in l.word ==> PieceOk(p))
    && ModeOk(l.mode)
  }

  /** The scanner is where the layout says. */
  predicate InStep(l: Layout, s: Scan) {
    && s.hasToken == (l.word != [] || !l.mode.Outside?)
    && s.pending == (l.mode.AfterSlash? || l.mode.InDoubleSlash?)
    && s.quote == if l.mode.InSingle? then Some('\'')
                  else if l.mode.InDouble? || l.mode.InDoubleSlash? then Some('"') else None
  }

  function WithPiece(l: Layout, p: Piece): Layout {
    l.(word := l.word + [p], mode := Outside)
  }

  function WithSpace(l: Layout, c: char): Layout {
    if l.word != [] then l.(line := l.line + [Written(l.word, [c])], word := [])
    else if l.line == [] then l.(lead := l.lead + [c])
    else
      var n := |l.line| - 1;
      l.(line := l.line[..n] + [l.line[n].(gap := l.line[n].gap + [c])])
  }

  function Grow(l: Layout, c: char): Layout {
    match l.mode
    case Outside =>
      if c == '"' then l.(mode := InDouble([]))
      else if c == '\'' then l.(mode := InSingle(""))
      else if c == '\\' then l.(mode := AfterSlash)
      else if IsSpace(c) then WithSpace(l, c)
      else WithPiece(l, Bare(c))
    case AfterSlash => WithPiece(l, Escaped(c))
    case InSingle(body) => if c == '\'' then WithPiece(l, SingleQuoted(body)) else l.(mode := InSingle(body + [c]))
    case InDouble(inner) =>
      if c == '\\' then l.(mode := InDoubleSlash(inner))
      else if c == '"' then WithPiece(l, DoubleQuoted(inner))
      else l.(mode := InDouble(inner + [Raw(c)]))
    case InDoubleSlash(inner) => l.(mode := InDouble(inner + [Escape(c)]))
  }

  lemma GrowInStep(l: Layout, s: Scan, c: char)
    requires InStep(l, s)
    ensures InStep(Grow(l, c), Feed(s, c))
  {
  }

  lemma WithSpaceOk(l: Layout, c: char)
    requires LayoutOk(l) && IsSpace(c) && l.mode == Outside
    ensures LayoutOk(WithSpace(l, c))
  {
  }

  lemma WithPieceOk(l: Layout, p: Piece)
    requires LayoutOk(l) && PieceOk(p)
    ensures LayoutOk(WithPiece(l, p))
  {
  }

  lemma GrowOk(l: Layout, c: char)
    requires LayoutOk(l)
    ensures LayoutOk(Grow(l, c))
  {
    match l.mode
    case Outside =>
      if IsSpace(c) { WithSpaceOk(l, c); } else if !IsQuote(c) && c != '\\' { WithPieceOk(l, Bare(c)); }
    case AfterSlash => WithPieceOk(l, Escaped(c));
    case InSingle(body) => if c == '\'' { WithPieceOk(l, SingleQuoted(body)); }
    case InDouble(inner) => if c == '"' { WithPieceOk(l, DoubleQuoted(inner)); }
    case InDoubleSlash(_) =>
  }

  lemma LineGrows(line: seq<Written>, w: Written)
    ensures LineText(line + [w]) == LineText(line) + WordText(w.word) + w.gap
  {
    assert (line + [w])[..|line|] == line;
  }

  lemma OutsideText(l: Layout)
    requires l.mode == Outside
    ensures LayoutText(l) == l.lead + LineText(l.line) + WordText(l.word)
    ensures l.word == [] ==> LayoutText(l) == l.lead + LineText(l.line)
  {
    var s := l.lead + LineText(l.line) + WordText(l.word);
    assert s + "" == s;
    assert l.lead + LineText(l.line) + "" == l.lead + LineText(l.line);
  }

  lemma GapGrows(line: seq<Written>, c: char)
    requires line != []
    ensures var n := |line| - 1;
            LineText(line[..n] + [line[n].(gap := line[n].gap + [c])]) == LineText(line) + [c]
  {
    var n := |line| - 1;
    var before, last := line[..n], line[n];
    assert line == before + [last];
    LineGrows(before, last.(gap := last.gap + [c]));
    Regrouped(LineText(before) + WordText(last.word), last.gap, [c]);
  }

  lemma Regrouped(a: string, b: string, c: string)
    ensures a + (b + c) == a + b + c
  {
  }

  lemma SpaceText(l: Layout, c: char)
    requires l.mode == Outside
    ensures LayoutText(WithSpace(l, c)) == LayoutText(l) + [c]
  {
    var after := WithSpace(l, c);
    OutsideText(l);
    OutsideText(after);
    if l.word != [] {
      LineGrows(l.line, Written(l.word, [c]));
      Regrouped(l.lead, LineText(l.line) + WordText(l.word), [c]);
      Regrouped(l.lead, LineText(l.line), WordText(l.word));
    } else if l.line != [] {
      GapGrows(l.line, c);
      Regrouped(l.lead, LineText(l.line), [c]);
    } else {
      assert LineText([]) == "";
      assert l.lead + [c] + "" == l.lead + "" + [c];
    }
  }

  lemma PieceGrows(l: Layout, p: Piece, c: char)
    requires PieceText(p) == ModeText(l.mode) + [c]
    ensures LayoutText(WithPiece(l, p)) == LayoutText(l) + [c]
  {
    assert (l.word + [p])[..|l.word|] == l.word;
  }

  lemma InnerGrows(inner: seq<Inner>, i: Inner)
    ensures InnerText(inner + [i]) == InnerText(inner) + (if i.Raw? then [i.c] else ['\\', i.c])
  {
    assert (inner + [i])[..|inner|] == inner;
  }

  lemma ModeGrows(l: Layout, m: Mode, c: char)
    requires ModeText(m) == ModeText(l.mode) + [c]
    ensures LayoutText(l.(mode := m)) == LayoutText(l) + [c]
  {
    Regrouped(l.lead + LineText(l.line) + WordText(l.word), ModeText(l.mode), [c]);
  }

  lemma OutsideGrows(l: Layout, c: char)
    requires l.mode == Outside
    ensures LayoutText(Grow(l, c)) == LayoutText(l) + [c]
  {
    if c == '"' {
      assert InnerText([]) == "";
      ModeGrows(l, InDouble([]), c);
    } else if c == '\'' {
      ModeGrows(l, InSingle(""), c);
    } else if c == '\\' {
      ModeGrows(l, AfterSlash, c);
    } else if IsSpace(c) {
      SpaceText(l, c);
    } else {
      PieceGrows(l, Bare(c), c);
    }
  }

  lemma DoubleGrows(l: Layout, c: char)
    requires l.mode.InDouble? || l.mode.InDoubleSlash?
    ensures LayoutText(Grow(l, c)) == LayoutText(l) + [c]
  {
    var inner := l.mode.inner;
    if l.mode.InDoubleSlash? {
      InnerGrows(inner, Escape(c));
      assert "\"" + (InnerText(inner) + ['\\', c]) == "\"" + InnerText(inner) + "\\" + [c];
      ModeGrows(l, InDouble(inner + [Escape(c)]), c);
    } else if c == '\\' {
      ModeGrows(l, InDoubleSlash(inner), c);
    } else if c == '"' {
      PieceGrows(l, DoubleQuoted(inner), c);
    } else {
      InnerGrows(inner, Raw(c));
      Regrouped("\"", InnerText(inner), [c]);
      ModeGrows(l, InDouble(inner + [Raw(c)]), c);
    }
  }

  lemma GrowText(l: Layout, c: char)
    ensures LayoutText(Grow(l, c)) == LayoutText(l) + [c]
  {
    match l.mode
    case Outside => OutsideGrows(l, c);
    case AfterSlash => PieceGrows(l, Escaped(c), c);
    case InSingle(body) =>
      if c == '\'' {
        PieceGrows(l, SingleQuoted(body), c);
      } else {
        Regrouped("'", body, [c]);
        ModeGrows(l, InSingle(body + [c]), c);
      }
    case InDouble(_) => DoubleGrows(l, c);
    case InDoubleSlash(_) => DoubleGrows(l, c);
  }

  lemma {:induction false} LayoutOf(text: string) returns (l: Layout)
    ensures LayoutOk(l) && LayoutText(l) == text && InStep(l, FeedAll(START, text))
    decreases |text|
  {
    if text == "" {
      l := Layout("", [], [], Outside);
    } else {
      var n := |text| - 1;
      var before := LayoutOf(text[..n]);
      l := Grow(before, text[n]);
      GrowOk(before, text[n]);
      GrowText(before, text[n]);
      GrowInStep(before, FeedAll(START, text[..n]), text[n]);
      assert text == text[..n] + [text[n]];
    }
  }

  /** The text is a writing of the words: pieces joined into words, words kept apart by white space. */
  ghost predicate IsWriting(text: string, words: seq<string>) {
    exists lead, line ::
      AllSpace(lead) && LineOk(line) && text == lead + LineText(line) && words == LineMeaning(line)
  }

  lemma OpenLineOk(line: seq<Written>, word: seq<Piece>)
    requires forall i :: 0 <= i < |line| ==> WordOk(line[i].word) && AllSpace(line[i].gap) && line[i].gap != ""
    requires WordOk(word)
    ensures LineOk(line + [Written(word, "")])
  {
  }

  /** A layout with no piece open is a line; its last word may end the text. */
  lemma LineOf(l: Layout) returns (line: seq<Written>)
    requires LayoutOk(l) && l.mode == Outside
    ensures LineOk(line) && LayoutText(l) == l.lead + LineText(line)
  {
    OutsideText(l);
    if l.word == [] {
      line := l.line;
    } else {
      line := l.line + [Written(l.word, "")];
      OpenLineOk(l.line, l.word);
      LineGrows(l.line, Written(l.word, ""));
      Regrouped(l.lead, LineText(l.line), WordText(l.word));
      assert LineText(l.line) + WordText(l.word) + "" == LineText(l.line) + WordText(l.word);
    }
  }

  lemma AcceptedIsWriting(text: string)
    requires Tokenize(text).Ok? && !FeedAll(START, text).pending
    ensures IsWriting(text, Tokenize(text).value)
  {
    var l := LayoutOf(text);
    assert l.mode == Outside;
    var line := LineOf(l);
    TokenizeReadsEveryWriting(l.lead, line);
  }

  /** A backslash at the very end stands for itself, as if it had been written twice. */
  function Completed(text: string): string {
    if FeedAll(START, text).pending then text + "\\" else text
  }

  lemma CompletedMeansTheSame(text: string)
    ensures Tokenize(Completed(text)) == Tokenize(text)
    ensures !FeedAll(START, Completed(text)).pending
  {
    FeedConcat(START, text, "\\");
    FeedOne(FeedAll(START, text), '\\');
  }

  /** The tokenizer accepts exactly the writings, and a text is a writing of one list only. */
  lemma TokenizerIsExact(text: string, words: seq<string>)
    ensures Tokenize(text) == Ok(words) <==> IsWriting(Completed(text), words)
  {
    CompletedMeansTheSame(text);
    if IsWriting(Completed(text), words) {
      var lead, line :|
        AllSpace(lead) && LineOk(line) && Completed(text) == lead + LineText(line) && words == LineMeaning(line);
      TokenizeReadsEveryWriting(lead, line);
    } else if Tokenize(text).Ok? {
      AcceptedIsWriting(Completed(text));
    }
  }

  // ---- double-quoting ----

  function Escapes(s: string): seq<Inner> {
    seq(|s|, i requires 0 <= i < |s| => if s[i] == '"' || s[i] == '\\' then Escape(s[i]) else Raw(s[i]))
  }

  /** The word between double quotes, with a backslash before every quote and backslash. */
  function Quoted(s: string): string {
    "\"" + InnerText(Escapes(s)) + "\""
  }

  function QuotedList(words: seq<string>): string {
    if words == [] then ""
    else if |words| == 1 then Quoted(words[0])
    else QuotedList(words[..|words| - 1]) + " " + Quoted(words[|words| - 1])
  }

  lemma {:induction false} EscapesMean(s: string)
    ensures InnerMeaning(Escapes(s)) == s
    decreases |s|
  {
    if s != "" {
      assert Escapes(s)[..|s| - 1] == Escapes(s[..|s| - 1]);
      EscapesMean(s[..|s| - 1]);
    }
  }

  lemma QuotedWordRead(s: string)
    ensures EndsClean(Quoted(s)) && Tokenize(Quoted(s)) == Ok([s])
  {
    PieceRead(START, DoubleQuoted(Escapes(s)));
    EscapesMean(s);
    assert START.current + s == s;
    assert START.tokens + [s] == [s];
  }

  /** Double-quoting any list of strings, empty ones included, and tokenizing gives the list back. */
  lemma {:induction false} TokenizeQuoted(words: seq<string>)
    ensures EndsClean(QuotedList(words)) && Tokenize(QuotedList(words)) == Ok(words)
    decreases |words|
  {
    if words == [] {
      EmptyText();
    } else if |words| == 1 {
      QuotedWordRead(words[0]);
      assert words == [words[0]];
    } else {
      var n := |words| - 1;
      var before, last := QuotedList(words[..n]), Quoted(words[n]);
      TokenizeQuoted(words[..n]);
      QuotedWordRead(words[n]);
      CleanConcat(before, ' ', last);
      assert [' '] == " ";
      assert words == words[..n] + [words[n]];
      AfterSpace(before, ' ');
      FeedConcat(START, before + " ", last);
      TokensOnlyGrow(START, words[..n], last);
      assert words[..n] + START.tokens == words[..n];
    }
  }
}
