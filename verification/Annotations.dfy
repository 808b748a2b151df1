/**
 The quote-aware splitting of an annotation line, and the parameter annotation read through it.
 Strings are sequences of characters, as ranging over a valid text yields them.
 */
module Annotations {

  predicate Blank(c: char) {
    c == ' ' || c == '\t'
  }

  predicate AllBlank(s: string) {
    forall i :: 0 <= i < |s| ==> Blank(s[i])
  }

  /** Behind an odd number of quotes. */
  predicate Inside(s: string) {
    if s == "" then false
    else if s[|s| - 1] == '"' then !Inside(s[..|s| - 1])
    else Inside(s[..|s| - 1])
  }

  // ------------------------------------------------------------------ splitting

  /** The variables of the loop: whether a quote is open, the token being collected, and the
      tokens behind it. */
  datatype Scan = Scan(inQuotes: bool, current: string, result: seq<string>)

  function Step(a: Scan, c: char): Scan {
    if c == '"' then a.(inQuotes := !a.inQuotes, current := a.current + [c])
    else if Blank(c) && !a.inQuotes then
      if a.current == "" then a else Scan(false, "", a.result + [a.current])
    else a.(current := a.current + [c])
  }

  function Scanned(s: string): Scan {
    if s == "" then Scan(false, "", []) else Step(Scanned(s[..|s| - 1]), s[|s| - 1])
  }

  function Flush(a: Scan): seq<string> {
    if a.current == "" then a.result else a.result + [a.current]
  }

  function Tokens(s: string): seq<string> {
    Flush(Scanned(s))
  }

  method SplitRespectingQuotes(s: string) returns (result: seq<string>)
    ensures result == Tokens(s)
  {
    result := [];
    var current, inQuotes := "", false;
    for i := 0 to |s|
      invariant Scan(inQuotes, current, result) == Scanned(s[..i])
    {
      assert s[..i + 1][..i] == s[..i];
      if s[i] == '"' {
        inQuotes := !inQuotes;
        current := current + [s[i]];
      } else if Blank(s[i]) {
        if inQuotes {
          current := current + [s[i]];
        } else if |current| > 0 {
          result := result + [current];
          current := "";
        }
      } else {
        current := current + [s[i]];
      }
    }
    assert s[..|s|] == s;
    if |current| > 0 {
      result := result + [current];
    }
  }

  // ------------------------------------------------------------------ nothing lost

  function Flatten(ts: seq<string>): string {
    if ts == [] then "" else Flatten(ts[..|ts| - 1]) + ts[|ts| - 1]
  }

  /** A text without its unquoted blanks. */
  function Kept(s: string): string {
    if s == "" then ""
    else Kept(s[..|s| - 1]) + if Blank(s[|s| - 1]) && !Inside(s[..|s| - 1]) then "" else [s[|s| - 1]]
  }

  /** The characters a scan has kept so far. */
  function Text(a: Scan): string {
    Flatten(a.result) + a.current
  }

  lemma FlattenFlush(a: Scan)
    ensures Flatten(Flush(a)) == Text(a)
  {
    assert (a.result + [a.current])[..|a.result|] == a.result;
  }

  lemma StepText(a: Scan, c: char)
    ensures Text(Step(a, c)) == Text(a) + if Blank(c) && !a.inQuotes then "" else [c]
  {
    FlattenFlush(a);
    assert Text(a.(current := a.current + [c])) == Text(a) + [c];
  }

  lemma {:induction false} ScanKeeps(s: string)
    ensures Text(Scanned(s)) == Kept(s)
    ensures Scanned(s).inQuotes == Inside(s)
  {
    if s != "" {
      ScanKeeps(s[..|s| - 1]);
      StepText(Scanned(s[..|s| - 1]), s[|s| - 1]);
    }
  }

  /** The tokens make up the text without its unquoted blanks. */
  lemma TokensKeepTheText(s: string)
    ensures Flatten(Tokens(s)) == Kept(s)
  {
    ScanKeeps(s);
    FlattenFlush(Scanned(s));
  }

  // ------------------------------------------------------------------ splitting undoes printing

  /** Not empty, and every blank within quotes. */
  predicate Token(t: string) {
    t != "" && forall i :: 0 <= i < |t| && Blank(t[i]) ==> Inside(t[..i])
  }

  /** Only the last token may leave a quote open. */
  predicate WellFormed(ts: seq<string>) {
    forall i :: 0 <= i < |ts| ==> Token(ts[i]) && (i < |ts| - 1 ==> !Inside(ts[i]))
  }

  /** Blanks in front of every token; the first may have none. */
  predicate Gaps(gaps: seq<string>) {
    forall i :: 0 <= i < |gaps| ==> AllBlank(gaps[i]) && (i > 0 ==> gaps[i] != "")
  }

  function Print(ts: seq<string>, gaps: seq<string>): string
    requires |ts| == |gaps|
  {
    if ts == [] then "" else Print(ts[..|ts| - 1], gaps[..|ts| - 1]) + gaps[|ts| - 1] + ts[|ts| - 1]
  }

  /** What may stand behind the last token: blanks, unless a quote is still open. */
  predicate Tail(ts: seq<string>, tail: string) {
    AllBlank(tail) && (ts != [] && Inside(ts[|ts| - 1]) ==> tail == "")
  }

  predicate Spells(s: string, ts: seq<string>, gaps: seq<string>, tail: string) {
    |ts| == |gaps| && Gaps(gaps) && Tail(ts, tail) && s == Print(ts, gaps) + tail
  }

  lemma {:induction false} ScanGap(s: string, gap: string)
    requires !Scanned(s).inQuotes && AllBlank(gap)
    ensures Scanned(s + gap) == if gap == "" then Scanned(s) else Scan(false, "", Flush(Scanned(s)))
  {
    if gap == "" {
      assert s + gap == s;
    } else {
      var front := gap[..|gap| - 1];
      assert (s + gap)[..|s + gap| - 1] == s + front;
      ScanGap(s, front);
    }
  }

  lemma TokenFront(t: string)
    requires t != "" && forall i :: 0 <= i < |t| && Blank(t[i]) ==> Inside(t[..i])
    ensures var front := t[..|t| - 1];
      (forall i :: 0 <= i < |front| && Blank(front[i]) ==> Inside(front[..i])) && (Blank(t[|t| - 1]) ==> Inside(front))
  {
    var front := t[..|t| - 1];
    forall i | 0 <= i < |front| && Blank(front[i]) ensures Inside(front[..i]) {
      assert front[..i] == t[..i];
    }
  }

  lemma {:induction false} ScanToken(s: string, t: string)
    requires Scanned(s).current == "" && !Scanned(s).inQuotes
    requires forall i :: 0 <= i < |t| && Blank(t[i]) ==> Inside(t[..i])
    ensures Scanned(s + t) == Scan(Inside(t), t, Scanned(s).result)
  {
    if t == "" {
      assert s + t == s;
    } else {
      var front := t[..|t| - 1];
      assert (s + t)[..|s + t| - 1] == s + front;
      TokenFront(t);
      ScanToken(s, front);
      assert front + [t[|t| - 1]] == t;
    }
  }

  lemma {:induction false} ScanPrint(ts: seq<string>, gaps: seq<string>)
    requires |ts| == |gaps| && WellFormed(ts) && Gaps(gaps)
    ensures ts == [] ==> Scanned(Print(ts, gaps)) == Scan(false, "", [])
    ensures ts != [] ==>
      Scanned(Print(ts, gaps)) == Scan(Inside(ts[|ts| - 1]), ts[|ts| - 1], ts[..|ts| - 1])
  {
    if ts != [] {
      var n := |ts| - 1;
      ScanPrint(ts[..n], gaps[..n]);
      var front := Print(ts[..n], gaps[..n]);
      if n > 0 {
        assert ts[..n][..n - 1] + [ts[n - 1]] == ts[..n];
      }
      ScanGap(front, gaps[n]);
      ScanToken(front + gaps[n], ts[n]);
    }
  }

  lemma ScanTail(text: string, tail: string)
    requires AllBlank(tail) && (Scanned(text).inQuotes ==> tail == "")
    ensures Tokens(text + tail) == Flush(Scanned(text))
  {
    if tail == "" {
      assert text + tail == text;
    } else {
      ScanGap(text, tail);
    }
  }

  lemma FlushPrint(ts: seq<string>, gaps: seq<string>)
    requires |ts| == |gaps| && WellFormed(ts) && Gaps(gaps)
    ensures Flush(Scanned(Print(ts, gaps))) == ts
    ensures Scanned(Print(ts, gaps)).inQuotes ==> ts != [] && Inside(ts[|ts| - 1])
  {
    ScanPrint(ts, gaps);
    FlushOf(Scanned(Print(ts, gaps)), ts);
  }

  lemma FlushOf(a: Scan, ts: seq<string>)
    requires ts == [] ==> a == Scan(false, "", [])
    requires ts != [] ==> ts[|ts| - 1] != "" && a.current == ts[|ts| - 1] && a.result == ts[..|ts| - 1]
    ensures Flush(a) == ts
  {
  }

  /** Whatever the blanks between them, well-formed tokens come back as they were printed. */
  lemma SplitUndoesPrint(s: string, ts: seq<string>, gaps: seq<string>, tail: string)
    requires WellFormed(ts) && Spells(s, ts, gaps, tail)
    ensures Tokens(s) == ts
  {
    FlushPrint(ts, gaps);
    ScanTail(Print(ts, gaps), tail);
  }

  /** A blank and a tab separate alike, and nothing separates within quotes. */
  lemma BlankOrTab(a: string, b: string)
    requires Token(a) && Token(b) && !Inside(a)
    ensures Tokens(a + " " + b) == Tokens(a + "\t" + b) == [a, b]
  {
    TwoTokens(a, " ", b);
    TwoTokens(a, "\t", b);
  }

  lemma TwoTokens(a: string, gap: string, b: string)
    requires Token(a) && Token(b) && !Inside(a) && AllBlank(gap) && gap != ""
    ensures Tokens(a + gap + b) == [a, b]
  {
    var ts, gaps := [a, b], ["", gap];
    assert ts[..1] == [a] && gaps[..1] == [""] && [a][..0] == [] && [""][..0] == [];
    assert Print([a], [""]) == a;
    assert Print(ts, gaps) == a + gap + b;
    assert a + gap + b + "" == a + gap + b;
    SplitUndoesPrint(a + gap + b, ts, gaps, "");
  }

  lemma NewToken(c: char)
    requires !Blank(c)
    ensures Token([c]) && (Inside([c]) <==> c == '"')
  {
    assert [c][..0] == "";
  }

  lemma GrowToken(t: string, c: char)
    requires Token(t) && (Blank(c) ==> Inside(t))
    ensures Token(t + [c]) && (Inside(t + [c]) <==> (if c == '"' then !Inside(t) else Inside(t)))
  {
    assert (t + [c])[..|t|] == t;
    forall i | 0 <= i < |t + [c]| && Blank((t + [c])[i]) ensures Inside((t + [c])[..i]) {
      if i < |t| {
        assert (t + [c])[..i] == t[..i];
      }
    }
  }

  predicate Closed(ts: seq<string>) {
    forall i :: 0 <= i < |ts| ==> Token(ts[i]) && !Inside(ts[i])
  }

  /** The tokens the loop has collected, and the one it is collecting. */
  predicate Sound(a: Scan) {
    Closed(a.result) && (if a.current == "" then !a.inQuotes else Token(a.current) && Inside(a.current) == a.inQuotes)
  }

  /** Blanks between the tokens and behind the last. */
  predicate Spaced(a: Scan, gaps: seq<string>, tail: string) {
    && |gaps| == |Flush(a)| && Gaps(gaps) && AllBlank(tail)
    && (if a.current == "" then a.result != [] ==> tail != "" else tail == "")
  }

  /** How the variables of the loop spell the text read so far. */
  predicate Reading(a: Scan, s: string, gaps: seq<string>, tail: string) {
    Sound(a) && Spaced(a, gaps, tail) && s == Print(Flush(a), gaps) + tail
  }

  lemma ClosedAppend(ts: seq<string>, t: string)
    requires Closed(ts) && Token(t) && !Inside(t)
    ensures Closed(ts + [t])
  {
  }

  lemma StepSound(a: Scan, c: char)
    requires Sound(a)
    ensures Sound(Step(a, c))
  {
    if Blank(c) && !a.inQuotes {
      if a.current != "" {
        ClosedAppend(a.result, a.current);
      }
    } else if a.current == "" {
      NewToken(c);
      assert a.current + [c] == [c];
    } else {
      GrowToken(a.current, c);
    }
  }

  lemma PrintLast(ts: seq<string>, t: string, gaps: seq<string>)
    requires |gaps| == |ts| + 1
    ensures Print(ts + [t], gaps) == Print(ts, gaps[..|ts|]) + gaps[|ts|] + t
  {
    assert (ts + [t])[..|ts|] == ts;
  }

  lemma PrintGrow(ts: seq<string>, t: string, c: char, gaps: seq<string>)
    requires |gaps| == |ts| + 1
    ensures Print(ts + [t + [c]], gaps) == Print(ts + [t], gaps) + [c]
  {
    PrintLast(ts, t, gaps);
    PrintLast(ts, t + [c], gaps);
  }

  /** An unquoted blank ends the token being collected, or lengthens the tail. */
  lemma ReadBlank(a: Scan, c: char, s: string, gaps: seq<string>, tail: string)
    requires Reading(a, s, gaps, tail) && Blank(c) && !a.inQuotes
    ensures Reading(Step(a, c), s + [c], gaps, tail + [c])
  {
    StepSound(a, c);
    assert s + [c] == Print(Flush(a), gaps) + (tail + [c]);
  }

  /** A new token starts behind the tail. */
  lemma ReadStart(a: Scan, c: char, s: string, gaps: seq<string>, tail: string)
    requires Reading(a, s, gaps, tail) && !Blank(c) && a.current == ""
    ensures Reading(Step(a, c), s + [c], gaps + [tail], "")
  {
    StepSound(a, c);
    assert a.current + [c] == [c];
    assert (gaps + [tail])[..|a.result|] == gaps;
    PrintLast(a.result, [c], gaps + [tail]);
  }

  /** The token being collected grows. */
  lemma ReadMore(a: Scan, c: char, s: string, gaps: seq<string>, tail: string)
    requires Reading(a, s, gaps, tail) && (Blank(c) ==> a.inQuotes) && a.current != ""
    ensures Reading(Step(a, c), s + [c], gaps, "")
  {
    StepSound(a, c);
    PrintGrow(a.result, a.current, c, gaps);
  }

  lemma ReadNext(a: Scan, c: char, s: string, gaps: seq<string>, tail: string)
    returns (gaps': seq<string>, tail': string)
    requires Reading(a, s, gaps, tail)
    ensures Reading(Step(a, c), s + [c], gaps', tail')
  {
    if Blank(c) && !a.inQuotes {
      ReadBlank(a, c, s, gaps, tail);
      return gaps, tail + [c];
    } else if a.current == "" {
      ReadStart(a, c, s, gaps, tail);
      return gaps + [tail], "";
    }
    ReadMore(a, c, s, gaps, tail);
    return gaps, "";
  }

  lemma {:induction false} ScanReads(s: string) returns (gaps: seq<string>, tail: string)
    ensures Reading(Scanned(s), s, gaps, tail)
  {
    if s == "" {
      return [], "";
    }
    var front := s[..|s| - 1];
    gaps, tail := ScanReads(front);
    gaps, tail := ReadNext(Scanned(front), s[|s| - 1], front, gaps, tail);
    assert s == front + [s[|s| - 1]];
  }

  /** Any text is the printed form of its tokens. */
  lemma TokensSpell(s: string) returns (gaps: seq<string>, tail: string)
    ensures WellFormed(Tokens(s)) && Spells(s, Tokens(s), gaps, tail)
  {
    gaps, tail := ScanReads(s);
  }

  /** Splitting exactly inverts printing. */
  lemma SplitExactly(s: string, ts: seq<string>)
    ensures Tokens(s) == ts <==> WellFormed(ts) && exists gaps, tail :: Spells(s, ts, gaps, tail)
  {
    if Tokens(s) == ts {
      var gaps, tail := TokensSpell(s);
    } else if WellFormed(ts) {
      forall gaps, tail ensures !Spells(s, ts, gaps, tail) {
        if Spells(s, ts, gaps, tail) {
          SplitUndoesPrint(s, ts, gaps, tail);
        }
      }
    }
  }

  function Singles(n: nat): (gaps: seq<string>)
    ensures |gaps| == n && Gaps(gaps) && forall i :: 0 < i < n ==> gaps[i] == " "
  {
    if n == 0 then [] else if n == 1 then [""] else Singles(n - 1) + [" "]
  }

  function Join(ts: seq<string>, separator: string): string {
    if ts == [] then "" else if |ts| == 1 then ts[0] else Join(ts[..|ts| - 1], separator) + separator + ts[|ts| - 1]
  }

  lemma {:induction false} JoinPrints(ts: seq<string>)
    ensures Join(ts, " ") == Print(ts, Singles(|ts|))
  {
    if |ts| > 1 {
      JoinPrints(ts[..|ts| - 1]);
      assert Singles(|ts|)[..|ts| - 1] == Singles(|ts| - 1);
    } else if |ts| == 1 {
      assert Print(ts[..0], Singles(1)[..0]) == "";
    }
  }

  /** Joined with single blanks, well-formed tokens come back; so splitting the tokens of any text
      once more changes nothing. */
  lemma SplitUndoesJoin(ts: seq<string>, s: string)
    ensures WellFormed(ts) ==> Tokens(Join(ts, " ")) == ts
    ensures Tokens(Join(Tokens(s), " ")) == Tokens(s)
  {
    forall us: seq<string> | WellFormed(us) ensures Tokens(Join(us, " ")) == us {
      JoinPrints(us);
      SplitUndoesPrint(Join(us, " "), us, Singles(|us|), "");
    }
    var gaps, tail := TokensSpell(s);
  }

  // ------------------------------------------------------------------ the parameter annotation

  datatype SwaggerParam =
    SwaggerParam(name: string, location: string, kind: string, required: bool, description: string)

  const PARAM := "@Param"

  /** White space of Unicode. */
  predicate Space(c: char) {
    c in "\t\n\U{0B}\U{0C}\r \U{85}\U{A0}\U{1680}\U{2028}\U{2029}\U{202F}\U{205F}\U{3000}"
    || '\U{2000}' <= c <= '\U{200A}'
  }

  function TrimLeftSpace(s: string): string {
    if s != "" && Space(s[0]) then TrimLeftSpace(s[1..]) else s
  }

  function TrimSpace(s: string): string {
    if s != "" && Space(s[|s| - 1]) then TrimSpace(s[..|s| - 1]) else TrimLeftSpace(s)
  }

  function TrimLeftQuotes(s: string): string {
    if s != "" && s[0] == '"' then TrimLeftQuotes(s[1..]) else s
  }

  function TrimRightQuotes(s: string): string {
    if s != "" && s[|s| - 1] == '"' then TrimRightQuotes(s[..|s| - 1]) else s
  }

  function TrimQuotes(s: string): string {
    TrimRightQuotes(TrimLeftQuotes(s))
  }

  function TrimPrefix(s: string, prefix: string): string {
    if prefix <= s then s[|prefix|..] else s
  }

  function FromParts(parts: seq<string>): SwaggerParam {
    if |parts| < 4 then SwaggerParam("", "", "", false, "")
    else SwaggerParam(parts[0], parts[1], parts[2], parts[3] == "true", TrimQuotes(Join(parts[4..], " ")))
  }

  function Param(line: string): SwaggerParam {
    FromParts(Tokens(TrimSpace(TrimPrefix(line, PARAM))))
  }

  method ParseParam(line: string) returns (param: SwaggerParam)
    ensures param == Param(line)
  {
    var rest := TrimSpace(TrimPrefix(line, PARAM));
    var parts := SplitRespectingQuotes(rest);
    param := SwaggerParam("", "", "", false, "");
    if |parts| >= 4 {
      param := param.(name := parts[0], location := parts[1], kind := parts[2], required := parts[3] == "true");
      if |parts| > 4 {
        param := param.(description := TrimQuotes(Join(parts[4..], " ")));
      }
    }
  }

  predicate QuoteFree(s: string) {
    '"' !in s
  }

  lemma {:induction false} NotInside(s: string)
    requires QuoteFree(s)
    ensures !Inside(s)
  {
    if s != "" {
      NotInside(s[..|s| - 1]);
    }
  }

  lemma {:induction false} QuotedToken(d: string)
    requires QuoteFree(d)
    ensures Token("\"" + d + "\"") && !Inside("\"" + d + "\"") && Inside("\"" + d)
  {
    var q := "\"" + d;
    InsideQuoted(d);
    assert (q + "\"")[..|q|] == q;
    forall i | 0 <= i < |q + "\""| && Blank((q + "\"")[i]) ensures Inside((q + "\"")[..i]) {
      assert i > 0;
      assert (q + "\"")[..i] == "\"" + d[..i - 1];
      InsideQuoted(d[..i - 1]);
    }
  }

  lemma {:induction false} InsideQuoted(d: string)
    requires QuoteFree(d)
    ensures Inside("\"" + d)
  {
    var q := "\"" + d;
    if d == "" {
      assert q == "\"" && q[..0] == "";
    } else {
      assert q[..|q| - 1] == "\"" + d[..|d| - 1];
      InsideQuoted(d[..|d| - 1]);
    }
  }

  lemma TrimQuotesOf(d: string)
    requires QuoteFree(d)
    ensures TrimQuotes("\"" + d + "\"") == d
  {
    var one := "\"";
    var q := one + d + one;
    assert q[1..] == d + one;
    assert TrimLeftQuotes(q) == TrimLeftQuotes(d + one);
    assert TrimRightQuotes(d) == d;
    if d == "" {
      assert d + one == one && one[1..] == "";
      assert TrimLeftQuotes(one) == TrimLeftQuotes("") == "";
    } else {
      assert (d + one)[0] == d[0];
      assert TrimLeftQuotes(d + one) == d + one;
      assert (d + one)[..|d + one| - 1] == d;
      assert TrimRightQuotes(d + one) == TrimRightQuotes(d);
    }
  }

  lemma {:induction false} TrimBlanks(gap: string, s: string)
    requires AllBlank(gap) && s != "" && !Space(s[0]) && !Space(s[|s| - 1])
    ensures TrimSpace(gap + s) == s
  {
    assert (gap + s)[|gap + s| - 1] == s[|s| - 1];
    TrimLeftBlanks(gap, s);
  }

  lemma {:induction false} TrimLeftBlanks(gap: string, s: string)
    requires AllBlank(gap) && s != "" && !Space(s[0])
    ensures TrimLeftSpace(gap + s) == s
  {
    if gap == "" {
      assert gap + s == s;
    } else {
      assert (gap + s)[1..] == gap[1..] + s;
      TrimLeftBlanks(gap[1..], s);
    }
  }

  /** A field as it stands in the annotation: one closed token. */
  predicate Field(t: string) {
    Token(t) && !Inside(t)
  }

  lemma ParamTokens(ts: seq<string>)
    requires |ts| == 5 && forall i :: 0 <= i < 5 ==> Field(ts[i])
    requires |ts[4]| >= 2 && ts[4] == "\"" + ts[4][1..|ts[4]| - 1] + "\"" && QuoteFree(ts[4][1..|ts[4]| - 1])
    ensures FromParts(ts) == SwaggerParam(ts[0], ts[1], ts[2], ts[3] == "true", ts[4][1..|ts[4]| - 1])
  {
    assert ts[4..] == [ts[4]];
    TrimQuotesOf(ts[4][1..|ts[4]| - 1]);
  }

  lemma TrimPrefixOf(prefix: string, s: string)
    ensures TrimPrefix(prefix + s, prefix) == s
  {
  }

  /** With no blanks in front. */
  function Unindented(gaps: seq<string>): seq<string>
    requires gaps != []
  {
    [""] + gaps[1..]
  }

  lemma AnnotationRest(ts: seq<string>, gaps: seq<string>)
    requires |ts| == |gaps| > 0 && ts[0] != "" && ts[|ts| - 1] != "" && AllBlank(gaps[0])
    requires !Space(ts[0][0]) && !Space(ts[|ts| - 1][|ts[|ts| - 1]| - 1])
    ensures TrimSpace(TrimPrefix(PARAM + Print(ts, gaps), PARAM)) == Print(ts, Unindented(gaps))
  {
    FirstGap(ts, gaps);
    TrimPrefixOf(PARAM, Print(ts, gaps));
    TrimBlanks(gaps[0], Print(ts, Unindented(gaps)));
  }

  lemma UnindentedSplit(ts: seq<string>, gaps: seq<string>)
    requires |ts| == |gaps| > 0 && WellFormed(ts) && Gaps(gaps)
    ensures Tokens(Print(ts, Unindented(gaps))) == ts
  {
    var rest := Print(ts, Unindented(gaps));
    assert rest + "" == rest;
    SplitUndoesPrint(rest, ts, Unindented(gaps), "");
  }

  /** A printed annotation is read as its tokens, whatever the blanks between them. */
  lemma ParamOfTokens(ts: seq<string>, gaps: seq<string>)
    requires |ts| == |gaps| > 0 && WellFormed(ts) && Gaps(gaps)
    requires !Space(ts[0][0]) && !Space(ts[|ts| - 1][|ts[|ts| - 1]| - 1])
    ensures Param(PARAM + Print(ts, gaps)) == FromParts(ts)
  {
    AnnotationRest(ts, gaps);
    UnindentedSplit(ts, gaps);
  }

  lemma {:induction false} NoQuotesToTrim(s: string)
    requires QuoteFree(s)
    ensures TrimQuotes(s) == s
  {
  }

  /** With fewer than four tokens nothing is read; the description is what follows the fourth, joined by
      single blanks where it is not quoted. */
  lemma ParamOfWords(ts: seq<string>, gaps: seq<string>)
    requires |ts| == |gaps| > 0 && WellFormed(ts) && Gaps(gaps)
    requires !Space(ts[0][0]) && !Space(ts[|ts| - 1][|ts[|ts| - 1]| - 1])
    requires |ts| > 4 ==> QuoteFree(Join(ts[4..], " "))
    ensures Param("@Param" + Print(ts, gaps)) ==
      if |ts| < 4 then SwaggerParam("", "", "", false, "")
      else SwaggerParam(ts[0], ts[1], ts[2], ts[3] == "true", if |ts| == 4 then "" else Join(ts[4..], " "))
  {
    ParamOfTokens(ts, gaps);
    if |ts| >= 4 {
      NoQuotesToTrim(Join(ts[4..], " "));
    }
  }

  lemma ParamRecovered(p: SwaggerParam, required: string, gaps: seq<string>)
    requires Field(p.name) && Field(p.location) && Field(p.kind) && Field(required) && !Space(p.name[0])
    requires QuoteFree(p.description) && p.required == (required == "true")
    requires |gaps| == 5 && Gaps(gaps)
    ensures Param(PARAM + Print([p.name, p.location, p.kind, required, "\"" + p.description + "\""], gaps)) == p
  {
    var quoted := "\"" + p.description + "\"";
    var ts := [p.name, p.location, p.kind, required, quoted];
    QuotedToken(p.description);
    assert quoted[1..|quoted| - 1] == p.description && quoted[|quoted| - 1] == '"';
    ParamOfTokens(ts, gaps);
    ParamTokens(ts);
  }

  lemma {:induction false} TrimLeftSpaceStarts(s: string)
    ensures TrimLeftSpace(s) != "" ==> !Space(TrimLeftSpace(s)[0])
  {
    if s != "" && Space(s[0]) {
      TrimLeftSpaceStarts(s[1..]);
    }
  }

  lemma {:induction false} TrimSpaceStarts(s: string)
    ensures TrimSpace(s) != "" ==> !Space(TrimSpace(s)[0])
  {
    if s != "" && Space(s[|s| - 1]) {
      TrimSpaceStarts(s[..|s| - 1]);
    } else {
      TrimLeftSpaceStarts(s);
    }
  }

  /** No name ever starts with a space character. */
  lemma NameStarts(line: string)
    ensures Param(line).name != "" ==> !Space(Param(line).name[0])
  {
    var rest := TrimSpace(TrimPrefix(line, PARAM));
    TrimSpaceStarts(TrimPrefix(line, PARAM));
    var gaps, tail := TokensSpell(rest);
    var ts := Tokens(rest);
    if ts != [] {
      FirstGap(ts, gaps);
      assert rest[0] == (gaps[0] + Print(ts, [""] + gaps[1..]))[0];
    }
  }

  /** All five fields of a printed annotation come back, whatever the blanks between them, exactly
      when the name does not start with a space character, which the trimming takes away. */
  lemma ParamRoundTrip(p: SwaggerParam, required: string, gaps: seq<string>)
    requires Field(p.name) && Field(p.location) && Field(p.kind) && Field(required)
    requires QuoteFree(p.description) && p.required == (required == "true")
    requires |gaps| == 5 && Gaps(gaps)
    ensures Param(PARAM + Print([p.name, p.location, p.kind, required, "\"" + p.description + "\""], gaps)) == p
            <==> !Space(p.name[0])
  {
    if Space(p.name[0]) {
      NameStarts(PARAM + Print([p.name, p.location, p.kind, required, "\"" + p.description + "\""], gaps));
    } else {
      ParamRecovered(p, required, gaps);
    }
  }

  lemma {:induction false} FirstGap(ts: seq<string>, gaps: seq<string>)
    requires |ts| == |gaps| > 0 && ts[0] != ""
    ensures Print(ts, gaps) == gaps[0] + Print(ts, [""] + gaps[1..])
    ensures Print(ts, [""] + gaps[1..]) != "" && Print(ts, [""] + gaps[1..])[0] == ts[0][0]
    ensures ts[|ts| - 1] != "" ==>
      var s := Print(ts, [""] + gaps[1..]); s[|s| - 1] == ts[|ts| - 1][|ts[|ts| - 1]| - 1]
  {
    var n := |ts| - 1;
    var others := [""] + gaps[1..];
    if n == 0 {
      assert ts[..0] == [] && Print(ts[..0], gaps[..0]) == "" && Print(ts[..0], others[..0]) == "";
    } else {
      FirstGap(ts[..n], gaps[..n]);
      assert others[..n] == [""] + gaps[..n][1..];
    }
  }
}
