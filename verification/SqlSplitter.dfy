/** The statement splitter of the schema migration (migrations/versions/0002_schema.py:69-131): it
    cuts a script at the semicolons outside strings, comments and dollar quotes. */
module SqlSplitter {
  import opened Wrappers

  datatype Mode = Plain | Comment | Quoted | Dollar(tag: string)

  // ----- The lexer -----

  predicate IdentStart(c: char) {
    'a' <= c <= 'z' || 'A' <= c <= 'Z' || c == '_'
  }

  predicate IdentChar(c: char) {
    IdentStart(c) || '0' <= c <= '9'
  }

  /** The end of the run of identifier characters from i on. */
  function IdentEnd(text: string, i: nat): (end: nat)
    requires i <= |text|
    ensures i <= end <= |text| && forall k :: i <= k < end ==> IdentChar(text[k])
    decreases |text| - i
  {
    if i < |text| && IdentChar(text[i]) then IdentEnd(text, i + 1) else i
  }

  /** A match of the dollar-tag pattern at the start of the text: $$ or $name$. */
  function DollarTag(text: string): (r: Option<string>)
    ensures r.Some? ==> |r.value| >= 2 && r.value <= text && r.value[0] == '$' && ';' !in r.value
  {
    if |text| < 2 || text[0] != '$' then None
    else if text[1] == '$' then Some(text[..2])
    else if !IdentStart(text[1]) then None
    else
      var end := IdentEnd(text, 1);
      if end < |text| && text[end] == '$' then Some(text[..end + 1]) else None
  }

  /** An identifier of the tag pattern: a letter or underscore, then letters, digits and underscores. */
  predicate Ident(name: string) {
    name != "" && ('a' <= name[0] <= 'z' || 'A' <= name[0] <= 'Z' || name[0] == '_')
    && forall i :: 1 <= i < |name| ==>
         'a' <= name[i] <= 'z' || 'A' <= name[i] <= 'Z' || name[i] == '_' || '0' <= name[i] <= '9'
  }

  lemma {:induction false} IdentEndIs(text: string, from: nat, end: nat)
    requires from <= end < |text| && (forall k :: from <= k < end ==> IdentChar(text[k])) && !IdentChar(text[end])
    ensures IdentEnd(text, from) == end
    decreases end - from
  {
    if from < end {
      IdentEndIs(text, from + 1, end);
    }
  }

  lemma {:induction false} NamedTag(text: string, name: string)
    requires Ident(name) && |name| + 2 <= |text| && text[0] == '$' && text[1..|name| + 1] == name && text[|name| + 1] == '$'
    ensures DollarTag(text) == Some(text[..|name| + 2])
  {
    assert forall k :: 1 <= k < |name| + 1 ==> text[k] == name[k - 1];
    IdentEndIs(text, 1, |name| + 1);
  }

  /** The tags are $$ and $name$ for an identifier, wherever they stand, and nothing else. */
  lemma {:induction false} TagsExactly(text: string, tag: string)
    ensures DollarTag(text) == Some(tag) <==>
      tag <= text && (tag == "$$" || (|tag| > 2 && tag[0] == '$' && tag[|tag| - 1] == '$' && Ident(tag[1..|tag| - 1])))
  {
    if DollarTag(text) == Some(tag) {
      var end := if |tag| > 2 then IdentEnd(text, 1) else 1;
      assert tag == text[..end + 1] && tag[1..|tag| - 1] == text[1..end];
      assert forall k :: 1 <= k < end ==> IdentChar(text[k]);
    }
    if tag <= text {
      assert text[..|tag|] == tag;
      if |tag| > 2 && tag[0] == '$' && tag[|tag| - 1] == '$' && Ident(tag[1..|tag| - 1]) {
        NamedTag(text, tag[1..|tag| - 1]);
      }
    }
  }

  /** How many characters the lexer takes next, and the mode it is then in. Of the two dashes that
      open a comment only the first is taken; the comment takes the other. */
  function Next(text: string, mode: Mode): (r: (nat, Mode))
    requires text != ""
    ensures 1 <= r.0 <= |text|
  {
    match mode
    case Comment => (1, if text[0] == '\n' then Plain else Comment)
    case Dollar(tag) => if tag != "" && tag <= text then (|tag|, Plain) else (1, mode)
    case Quoted => if "''" <= text then (2, Quoted) else (1, if text[0] == '\'' then Plain else Quoted)
    case Plain =>
      if "--" <= text then (1, Comment)
      else if text[0] == '\'' then (1, Quoted)
      else if DollarTag(text).Some? then (|DollarTag(text).value|, Dollar(DollarTag(text).value))
      else (1, Plain)
  }

  /** A semicolon met in plain text. */
  predicate Cuts(text: string, mode: Mode) {
    text != "" && mode.Plain? && text[0] == ';'
  }

  predicate ValidMode(mode: Mode) {
    mode.Dollar? ==> mode.tag != "" && ';' !in mode.tag
  }

  /** The raw pieces of `taken` + `text`, the lexer standing between the two. */
  function Scan(taken: string, text: string, mode: Mode): (pieces: seq<string>)
    ensures |pieces| >= 1
    decreases |text|
  {
    if text == "" then [taken]
    else if Cuts(text, mode) then [taken] + Scan("", text[1..], Plain)
    else var (n, mode') := Next(text, mode); Scan(taken + text[..n], text[n..], mode')
  }

  function Split(script: string): seq<string> {
    Scan("", script, Plain)
  }

  // ----- What is emitted -----

  predicate Space(c: char) {
    c in {' ', '\t', '\n', '\r', '\U{000B}', '\U{000C}'}
  }

  function StripLeft(text: string): string {
    if text != "" && Space(text[0]) then StripLeft(text[1..]) else text
  }

  function StripRight(text: string): string {
    if text != "" && Space(text[|text| - 1]) then StripRight(text[..|text| - 1]) else text
  }

  function Strip(text: string): string {
    StripRight(StripLeft(text))
  }

  /** Stripping takes blanks off both ends and nothing else. */
  lemma {:induction false} StripLeftIs(text: string) returns (blank: string)
    ensures text == blank + StripLeft(text) && (forall c <- blank :: c in {' ', '\t', '\n', '\r', '\U{000B}', '\U{000C}'})
    ensures StripLeft(text) == "" || StripLeft(text)[0] !in {' ', '\t', '\n', '\r', '\U{000B}', '\U{000C}'}
  {
    if text != "" && Space(text[0]) {
      var rest := StripLeftIs(text[1..]);
      blank := [text[0]] + rest;
    } else {
      blank := "";
    }
  }

  lemma {:induction false} StripRightIs(text: string) returns (blank: string)
    ensures text == StripRight(text) + blank && (forall c <- blank :: c in {' ', '\t', '\n', '\r', '\U{000B}', '\U{000C}'})
    ensures StripRight(text) == "" || StripRight(text)[|StripRight(text)| - 1] !in {' ', '\t', '\n', '\r', '\U{000B}', '\U{000C}'}
  {
    if text != "" && Space(text[|text| - 1]) {
      var rest := StripRightIs(text[..|text| - 1]);
      blank := rest + [text[|text| - 1]];
    } else {
      blank := "";
    }
  }

  lemma {:induction false} StripIs(text: string) returns (before: string, after: string)
    ensures text == before + Strip(text) + after
    ensures forall c <- before + after :: c in {' ', '\t', '\n', '\r', '\U{000B}', '\U{000C}'}
    ensures Strip(text) != "" ==>
      && Strip(text)[0] !in {' ', '\t', '\n', '\r', '\U{000B}', '\U{000C}'}
      && Strip(text)[|Strip(text)| - 1] !in {' ', '\t', '\n', '\r', '\U{000B}', '\U{000C}'}
  {
    hide StripLeft, StripRight;
    before := StripLeftIs(text);
    after := StripRightIs(StripLeft(text));
    assert Strip(text) != "" ==> Strip(text)[0] == StripLeft(text)[0];
  }

  /** Where `splitlines` breaks. A CR LF pair makes one more, empty, line here. */
  predicate Break(c: char) {
    c in {'\n', '\r', '\U{000B}', '\U{000C}'}
  }

  function Lines(text: string): (lines: seq<string>)
    ensures |lines| >= 1
  {
    if text == "" then [""]
    else if Break(text[0]) then [""] + Lines(text[1..])
    else var rest := Lines(text[1..]); [[text[0]] + rest[0]] + rest[1..]
  }

  /** Some line is neither blank nor a comment. */
  predicate Executable(piece: string) {
    exists line <- Lines(piece) :: Strip(line) != "" && !("--" <= Strip(line))
  }

  function Emit(piece: string): seq<string> {
    if Executable(piece) then [Strip(piece)] else []
  }

  function EmitAll(pieces: seq<string>): seq<string> {
    if pieces == [] then [] else Emit(pieces[0]) + EmitAll(pieces[1..])
  }

  lemma {:induction false} EmitAllAppend(pieces: seq<string>, piece: string)
    ensures EmitAll(pieces + [piece]) == EmitAll(pieces) + Emit(piece)
  {
    if pieces == [] {
      assert [piece][1..] == [] && pieces + [piece] == [piece];
    } else {
      assert (pieces + [piece])[1..] == pieces[1..] + [piece];
      EmitAllAppend(pieces[1..], piece);
    }
  }

  // ----- The loop -----

  function ModeOf(inComment: bool, tag: Option<string>, inString: bool): Mode {
    if inComment then Comment else if tag.Some? then Dollar(tag.value) else if inString then Quoted else Plain
  }

  /** The pieces cut so far, and those of the buffer and the rest of the script, are the split. */
  ghost predicate Ahead(pieces: seq<string>, buffer: string, script: string, index: nat, mode: Mode) {
    index <= |script| && pieces + Scan(buffer, script[index..], mode) == Split(script)
  }

  lemma {:induction false} ScanStep(pieces: seq<string>, buffer: string, script: string, index: nat, mode: Mode)
    requires index < |script| && Ahead(pieces, buffer, script, index, mode)
    ensures Cuts(script[index..], mode) ==> Ahead(pieces + [buffer], "", script, index + 1, Plain)
    ensures !Cuts(script[index..], mode) ==>
      var (n, mode') := Next(script[index..], mode); Ahead(pieces, buffer + script[index..][..n], script, index + n, mode')
  {
    hide Next, Cuts, Split;
    var text := script[index..];
    assert text[1..] == script[index + 1..];
    var n := Next(text, mode).0;
    assert text[n..] == script[index + n..];
  }

  lemma {:induction false} ScanStart(script: string)
    ensures Ahead([], "", script, 0, Plain) && EmitAll([]) == []
  {
    assert script[0..] == script;
  }

  lemma {:induction false} Takes(text: string, front: string)
    requires front <= text
    ensures text[..|front|] == front
  {
  }

  /** Yields the stripped, executable statements of a script, in order. */
  method Statements(script: string) returns (statements: seq<string>)
    ensures statements == EmitAll(Split(script))
  {
    hide Next, Emit, EmitAll, Ahead, DollarTag;
    statements := [];
    ScanStart(script);
    var buffer := "";
    var tag: Option<string> := None;
    var inString, inComment := false, false;
    var index, length := 0, |script|;
    ghost var pieces: seq<string> := [];
    while index < length
      invariant index <= length == |script|
      invariant statements == EmitAll(pieces)
      invariant inComment ==> tag.None? && !inString
      invariant tag.Some? ==> !inString && tag.value != ""
      invariant Ahead(pieces, buffer, script, index, ModeOf(inComment, tag, inString))
    {
      var c := script[index];
      var text := script[index..];
      ghost var mode := ModeOf(inComment, tag, inString);
      ScanStep(pieces, buffer, script, index, mode);
      NextIs(text, mode);
      Takes(text, [c]);
      if inComment {
        buffer, index := buffer + [c], index + 1;
        inComment := c != '\n';
      } else if tag.Some? {
        if tag.value <= text {
          Takes(text, tag.value);
          buffer, index := buffer + tag.value, index + |tag.value|;
          tag := None;
        } else {
          buffer, index := buffer + [c], index + 1;
        }
      } else if inString {
        if c == '\'' && "''" <= text {
          Takes(text, "''");
          buffer, index := buffer + "''", index + 2;
        } else {
          if c == '\'' {
            inString := false;
          }
          buffer, index := buffer + [c], index + 1;
        }
      } else if "--" <= text {
        inComment := true;
        buffer, index := buffer + [c], index + 1;
      } else if c == '\'' {
        inString := true;
        buffer, index := buffer + [c], index + 1;
      } else if c == '$' && DollarTag(text).Some? {
        tag := DollarTag(text);
        Takes(text, tag.value);
        buffer, index := buffer + tag.value, index + |tag.value|;
      } else if c == ';' {
        EmitAllAppend(pieces, buffer);
        statements := statements + Emit(buffer);
        pieces := pieces + [buffer];
        buffer, index := "", index + 1;
      } else {
        buffer, index := buffer + [c], index + 1;
      }
    }
    ScanEnd(pieces, buffer, script, ModeOf(inComment, tag, inString));
    EmitAllAppend(pieces, buffer);
    statements := statements + Emit(buffer);
  }

  lemma {:induction false} ScanEnd(pieces: seq<string>, buffer: string, script: string, mode: Mode)
    requires Ahead(pieces, buffer, script, |script|, mode)
    ensures pieces + [buffer] == Split(script)
  {
    hide Split;
    assert script[|script|..] == "";
  }

  /** The lexer's step in the loop's own terms. */
  lemma {:induction false} NextIs(text: string, mode: Mode)
    requires text != "" && (mode.Dollar? ==> mode.tag != "")
    ensures mode.Comment? ==> Next(text, mode) == (1, if text[0] == '\n' then Plain else Comment)
    ensures mode.Dollar? ==> Next(text, mode) == if mode.tag <= text then (|mode.tag|, Plain) else (1, mode)
    ensures mode.Quoted? ==> Next(text, mode) == if "''" <= text then (2, Quoted) else (1, if text[0] == '\'' then Plain else Quoted)
    ensures mode.Plain? ==>
      Next(text, mode)
      == if "--" <= text then (1, Comment) else if text[0] == '\'' then (1, Quoted)
         else if DollarTag(text).Some? then (|DollarTag(text).value|, Dollar(DollarTag(text).value)) else (1, Plain)
    ensures DollarTag(text).Some? ==> text[0] == '$' && DollarTag(text).value != "" && DollarTag(text).value <= text
  {
  }

  // ----- Where it cuts -----

  /** No top-level semicolon is met in the text. */
  predicate CutFree(text: string, mode: Mode)
    decreases |text|
  {
    text == "" || (!Cuts(text, mode) && CutFree(text[Next(text, mode).0..], Next(text, mode).1))
  }

  /** The mode after the text. */
  function EndMode(text: string, mode: Mode): Mode
    decreases |text|
  {
    if text == "" then mode else EndMode(text[Next(text, mode).0..], Next(text, mode).1)
  }

  /** A lexically closed statement: it holds no top-level semicolon and leaves no string, comment or
      dollar quote open. */
  predicate Closed(piece: string) {
    CutFree(piece, Plain) && EndMode(piece, Plain) == Plain
  }

  predicate WellCut(pieces: seq<string>) {
    && |pieces| >= 1
    && CutFree(pieces[|pieces| - 1], Plain)
    && forall i :: 0 <= i < |pieces| - 1 ==> Closed(pieces[i])
  }

  function Join(pieces: seq<string>): string
    requires |pieces| >= 1
  {
    if |pieces| == 1 then pieces[0] else pieces[0] + ";" + Join(pieces[1..])
  }

  lemma {:induction false} IdentEndLocal(a: string, more: string, i: nat)
    requires i <= |a|
    ensures IdentEnd(a + ";" + more, i) == IdentEnd(a, i)
    decreases |a| - i
  {
    if i < |a| && IdentChar(a[i]) {
      IdentEndLocal(a, more, i + 1);
    }
  }

  lemma {:induction false} PrefixLocal(a: string, more: string, front: string)
    requires ';' !in front
    ensures front <= a + ";" + more <==> front <= a
  {
    if |front| > |a| {
      assert (a + ";" + more)[|a|] == ';';
    }
  }

  lemma {:induction false} DollarTagLocal(a: string, more: string)
    requires a != ""
    ensures DollarTag(a + ";" + more) == DollarTag(a)
  {
    var text := a + ";" + more;
    if |a| >= 2 && a[0] == '$' {
      IdentEndLocal(a, more, 1);
      var end := IdentEnd(a, 1);
      assert text[..2] == a[..2];
      if end < |a| {
        assert text[..end + 1] == a[..end + 1];
      }
    }
  }

  /** A semicolon ends every lookahead: the lexer reads a text the same with one behind it. */
  lemma {:induction false} NextLocal(a: string, more: string, mode: Mode)
    requires a != "" && ValidMode(mode)
    ensures Next(a + ";" + more, mode) == Next(a, mode) && Cuts(a + ";" + more, mode) == Cuts(a, mode)
    ensures ValidMode(Next(a, mode).1)
  {
    hide DollarTag;
    PrefixLocal(a, more, "--");
    PrefixLocal(a, more, "''");
    DollarTagLocal(a, more);
    if mode.Dollar? {
      PrefixLocal(a, more, mode.tag);
    }
    NextIs(a, mode);
    TagHasNoSemicolon(a);
  }

  lemma {:induction false} TagHasNoSemicolon(text: string)
    ensures DollarTag(text).Some? ==> DollarTag(text).value != "" && ';' !in DollarTag(text).value
  {
  }

  /** The pieces joined by semicolons are the script again. */
  lemma {:induction false} Rebuilds(taken: string, text: string, mode: Mode)
    ensures Join(Scan(taken, text, mode)) == taken + text
    decreases |text|
  {
    hide Next;
    if text == "" {
      assert taken + text == taken;
    } else if Cuts(text, mode) {
      var rest := Scan("", text[1..], Plain);
      Rebuilds("", text[1..], Plain);
      assert ([taken] + rest)[1..] == rest;
      assert text == ";" + text[1..];
    } else {
      var n := Next(text, mode).0;
      Rebuilds(taken + text[..n], text[n..], Next(text, mode).1);
      assert taken + text[..n] + text[n..] == taken + text;
    }
  }

  lemma {:induction false} ScanCutFree(taken: string, text: string, mode: Mode)
    requires CutFree(text, mode)
    ensures Scan(taken, text, mode) == [taken + text]
    decreases |text|
  {
    hide Next;
    if text == "" {
      assert taken + text == taken;
    } else {
      var n := Next(text, mode).0;
      ScanCutFree(taken + text[..n], text[n..], Next(text, mode).1);
      assert taken + text[..n] + text[n..] == taken + text;
    }
  }

  lemma {:induction false} ScanClosed(taken: string, a: string, more: string, mode: Mode)
    requires CutFree(a, mode) && EndMode(a, mode) == Plain && ValidMode(mode)
    ensures Scan(taken, a + ";" + more, mode) == [taken + a] + Scan("", more, Plain)
    decreases |a|
  {
    hide Next;
    var text := a + ";" + more;
    if a == "" {
      assert text[1..] == more && taken + a == taken;
    } else {
      NextLocal(a, more, mode);
      var n := Next(a, mode).0;
      assert text[n..] == a[n..] + ";" + more && text[..n] == a[..n];
      ScanClosed(taken + a[..n], a[n..], more, Next(a, mode).1);
      assert taken + a[..n] + a[n..] == taken + a;
    }
  }

  /** Splitting a join of closed statements gives them back, the last one needing only to be free
      of top-level semicolons. */
  lemma {:induction false} SplitJoin(pieces: seq<string>)
    requires WellCut(pieces)
    ensures Split(Join(pieces)) == pieces
    decreases |pieces|
  {
    hide CutFree, EndMode, Scan;
    if |pieces| == 1 {
      ScanCutFree("", pieces[0], Plain);
      assert "" + pieces[0] == pieces[0];
    } else {
      var rest := pieces[1..];
      assert Closed(pieces[0]);
      SplitJoin(rest);
      ScanClosed("", pieces[0], Join(rest), Plain);
      assert "" + pieces[0] == pieces[0];
    }
  }

  /** One lexeme in front of a piece. */
  lemma {:induction false} PieceStep(text: string, mode: Mode, tail: string, more: string, cut: bool)
    requires ValidMode(mode) && text != "" && !Cuts(text, mode)
    requires text[Next(text, mode).0..] == (if cut then tail + ";" + more else tail)
    ensures var n, piece := Next(text, mode).0, text[..Next(text, mode).0] + tail;
            && text == (if cut then piece + ";" + more else piece)
            && ValidMode(Next(text, mode).1)
            && CutFree(piece, mode) == CutFree(tail, Next(text, mode).1)
            && EndMode(piece, mode) == EndMode(tail, Next(text, mode).1)
  {
    hide Next, Cuts, ValidMode;
    var n := Next(text, mode).0;
    var piece := text[..n] + tail;
    NextLocal(text, "", mode);
    assert text == text[..n] + text[n..];
    if cut {
      assert text == piece + ";" + more;
      NextLocal(piece, more, mode);
    } else {
      assert text == piece;
    }
    assert piece[n..] == tail;
  }

  /** What the scan has of its first piece once it ends, by a cut or with the text. */
  lemma {:induction false} ScanTakes(taken: string, text: string, mode: Mode)
    requires text != "" && !Cuts(text, mode)
    ensures var n := Next(text, mode).0; Scan(taken, text, mode) == Scan(taken + text[..n], text[n..], Next(text, mode).1)
  {
    hide Next, Cuts;
  }

  lemma {:induction false} EmptyPiece(taken: string, text: string, mode: Mode)
    requires text == "" || Cuts(text, mode)
    ensures CutFree("", mode) && EndMode("", mode) == mode && taken + "" == taken
    ensures text == "" ==> Scan(taken, text, mode) == [taken]
    ensures text != "" ==> mode == Plain && text == "" + ";" + text[1..] && Scan(taken, text, mode) == [taken] + Scan("", text[1..], Plain)
  {
    hide Next;
  }

  lemma {:induction false} FirstPiece(taken: string, text: string, mode: Mode) returns (piece: string, more: string,
      cut: bool)
    requires ValidMode(mode)
    ensures CutFree(piece, mode)
    ensures text == if cut then piece + ";" + more else piece
    ensures cut ==> EndMode(piece, mode) == Plain && |more| < |text|
    ensures Scan(taken, text, mode) == if cut then [taken + piece] + Scan("", more, Plain) else [taken + piece]
    decreases |text|
  {
    hide Next, ValidMode, CutFree, EndMode, Cuts, Scan;
    if text == "" {
      piece, more, cut := "", "", false;
      EmptyPiece(taken, text, mode);
    } else if Cuts(text, mode) {
      piece, more, cut := "", text[1..], true;
      EmptyPiece(taken, text, mode);
    } else {
      var n := Next(text, mode).0;
      ScanTakes(taken, text, mode);
      NextLocal(text, "", mode);
      var tail;
      tail, more, cut := FirstPiece(taken + text[..n], text[n..], Next(text, mode).1);
      piece := text[..n] + tail;
      PieceStep(text, mode, tail, more, cut);
      assert taken + text[..n] + tail == taken + piece;
    }
  }

  lemma {:induction false} SplitIsWellCut(script: string)
    ensures WellCut(Split(script))
    decreases |script|
  {
    hide CutFree, EndMode, Scan;
    var piece, more, cut := FirstPiece("", script, Plain);
    assert "" + piece == piece;
    if cut {
      SplitIsWellCut(more);
      var rest := Split(more);
      assert Split(script) == [piece] + rest;
      forall i | 0 <= i < |[piece] + rest| - 1 ensures Closed(([piece] + rest)[i]) {
        assert i > 0 ==> ([piece] + rest)[i] == rest[i - 1];
      }
    }
  }

  /** Splitting is characterised completely: the pieces are the one way to write the script as a
      join in which no piece holds a top-level semicolon and every piece but the last is closed. */
  lemma {:induction false} SplitExactly(script: string, pieces: seq<string>)
    ensures pieces == Split(script) <==> WellCut(pieces) && Join(pieces) == script
  {
    hide Scan, CutFree, EndMode;
    if pieces == Split(script) {
      SplitIsWellCut(script);
      Rebuilds("", script, Plain);
      assert "" + script == script;
    } else if WellCut(pieces) && Join(pieces) == script {
      SplitJoin(pieces);
    }
  }

  // ----- What hides a semicolon -----

  /** Every quote in the text is doubled, as SQL writes one inside a string. */
  predicate Doubled(body: string)
    decreases |body|
  {
    body == "" || (if "''" <= body then Doubled(body[2..]) else body[0] != '\'' && Doubled(body[1..]))
  }

  lemma {:induction false} QuotedBody(body: string)
    requires Doubled(body)
    ensures CutFree(body + "'", Quoted) && EndMode(body + "'", Quoted) == Plain
    decreases |body|
  {
    hide Next;
    var text := body + "'";
    NextIs(text, Quoted);
    if body == "" {
      assert !("''" <= text) && text[1..] == "";
    } else if "''" <= body {
      assert text[..2] == body[..2] == "''" && text[2..] == body[2..] + "'";
      QuotedBody(body[2..]);
    } else {
      assert text[0] == body[0] && text[1..] == body[1..] + "'";
      QuotedBody(body[1..]);
    }
  }

  lemma {:induction false} CommentBody(body: string)
    requires '\n' !in body
    ensures CutFree(body + "\n", Comment) && EndMode(body + "\n", Comment) == Plain
    decreases |body|
  {
    var text := body + "\n";
    if body == "" {
      assert text[1..] == "";
    } else {
      assert text[1..] == body[1..] + "\n";
      CommentBody(body[1..]);
    }
  }

  lemma {:induction false} DollarBody(body: string, tag: string)
    requires tag != "" && forall i :: 0 <= i < |body| ==> !(tag <= (body + tag)[i..])
    ensures CutFree(body + tag, Dollar(tag)) && EndMode(body + tag, Dollar(tag)) == Plain
    decreases |body|
  {
    var text := body + tag;
    if body == "" {
      assert text == tag && text[|tag|..] == "";
    } else {
      assert text == text[0..] && text[1..] == body[1..] + tag;
      forall i | 0 <= i < |body[1..]| ensures !(tag <= (body[1..] + tag)[i..]) {
        assert (body[1..] + tag)[i..] == text[i + 1..];
      }
      DollarBody(body[1..], tag);
    }
  }

  lemma {:induction false} IdentEndStops(text: string, more: string, i: nat)
    requires i <= |text| && IdentEnd(text, i) < |text|
    ensures IdentEnd(text + more, i) == IdentEnd(text, i)
    decreases |text| - i
  {
    if IdentChar(text[i]) {
      IdentEndStops(text, more, i + 1);
    }
  }

  lemma {:induction false} TagIsTakenWhole(tag: string, more: string)
    requires DollarTag(tag) == Some(tag)
    ensures DollarTag(tag + more) == Some(tag) && Next(tag + more, Plain) == (|tag|, Dollar(tag)) && !Cuts(tag + more, Plain)
  {
    var text := tag + more;
    if tag[1] == '$' {
      assert text[..2] == tag[..2] == tag;
    } else {
      var end := IdentEnd(tag, 1);
      IdentEndStops(tag, more, 1);
      assert text[..end + 1] == tag[..end + 1] == tag;
    }
  }

  lemma {:induction false} StringCloses(body: string)
    requires Doubled(body)
    ensures Closed("'" + body + "'")
  {
    hide DollarTag, Doubled, Next;
    var text := "'" + body + "'";
    assert text[1..] == body + "'";
    NextIs(text, Plain);
    QuotedBody(body);
  }

  lemma {:induction false} CommentCloses(body: string)
    requires '\n' !in body
    ensures Closed("--" + body + "\n")
  {
    hide DollarTag, Next;
    var text := "--" + body + "\n";
    assert text[1..] == ("-" + body) + "\n";
    NextIs(text, Plain);
    CommentBody("-" + body);
  }

  lemma {:induction false} DollarCloses(body: string, tag: string)
    requires DollarTag(tag) == Some(tag) && forall i :: 0 <= i < |body| ==> !(tag <= (body + tag)[i..])
    ensures Closed(tag + (body + tag))
  {
    hide DollarTag, Next, Cuts;
    TagIsTakenWhole(tag, body + tag);
    DollarBody(body, tag);
    var text := tag + (body + tag);
    assert text[|tag|..] == body + tag;
  }

  /** A string whose quotes are doubled, a comment and a dollar quote are closed whatever else they
      hold, semicolons included. */
  lemma {:induction false} QuotesHideSemicolons(body: string, tag: string)
    ensures Doubled(body) ==> Closed("'" + body + "'")
    ensures '\n' !in body ==> Closed("--" + body + "\n")
    ensures DollarTag(tag) == Some(tag) && (forall i :: 0 <= i < |body| ==> !(tag <= (body + tag)[i..])) ==> Closed(tag + (body + tag))
  {
    hide DollarTag, Doubled, Closed;
    if Doubled(body) {
      StringCloses(body);
    }
    if '\n' !in body {
      CommentCloses(body);
    }
    if DollarTag(tag) == Some(tag) && forall i :: 0 <= i < |body| ==> !(tag <= (body + tag)[i..]) {
      DollarCloses(body, tag);
    }
  }

  // ----- What is dropped -----

  /** The lexer meets something other than blanks and comments. */
  predicate HasCode(text: string, mode: Mode)
    decreases |text|
  {
    text != "" && ((mode.Plain? && !Space(text[0]) && !("--" <= text)) || HasCode(text[Next(text, mode).0..], Next(text, mode).1))
  }

  function AfterBreak(text: string): (rest: string)
    ensures text != "" ==> |rest| < |text|
  {
    if text == "" then "" else if Break(text[0]) then text[1..] else AfterBreak(text[1..])
  }

  /** `Executable`, read along the text: skip blanks, skip comment lines, find anything else. */
  predicate LineCode(text: string)
    decreases |text|
  {
    text != "" && if Space(text[0]) then LineCode(text[1..]) else if "--" <= text then LineCode(AfterBreak(text)) else true
  }

  predicate CodeLine(line: string) {
    Strip(line) != "" && !("--" <= Strip(line))
  }

  lemma {:induction false} StripBlank(c: char, line: string)
    requires Space(c)
    ensures Strip([c] + line) == Strip(line)
  {
    assert ([c] + line)[1..] == line;
  }

  lemma {:induction false} StripKeepsFront(line: string)
    requires line != "" && !Space(line[0])
    ensures StripRight(line) != "" && StripRight(line) <= line
    ensures |line| >= 2 && !Space(line[1]) ==> |StripRight(line)| >= 2
    decreases |line|
  {
    if Space(line[|line| - 1]) {
      StripKeepsFront(line[..|line| - 1]);
    }
  }

  lemma {:induction false} CodeLineFront(line: string)
    requires line != "" && !Space(line[0])
    ensures CodeLine(line) <==> !("--" <= line)
  {
    StripKeepsFront(line);
    assert StripLeft(line) == line;
  }

  lemma {:induction false} LinesFront(text: string)
    requires text != "" && !Break(text[0])
    ensures var lines := Lines(text); lines[0] != "" && lines[0][0] == text[0] && ("--" <= lines[0] <==> "--" <= text)
  {
    if |text| >= 2 && !Break(text[1]) {
      assert Lines(text[1..])[0][0] == text[1];
    } else if |text| >= 2 {
      assert Lines(text[1..])[0] == "";
    }
  }

  lemma {:induction false} LinesAfterBreak(text: string)
    ensures |Lines(text)| > 1 ==> Lines(AfterBreak(text)) == Lines(text)[1..]
    ensures |Lines(text)| == 1 ==> AfterBreak(text) == ""
  {
    if text != "" && !Break(text[0]) {
      LinesAfterBreak(text[1..]);
    }
  }

  lemma {:induction false} ExecutableSplit(text: string)
    ensures Executable(text) <==> CodeLine(Lines(text)[0]) || Executable(AfterBreak(text))
  {
    hide Strip, AfterBreak;
    LinesAfterBreak(text);
    var lines := Lines(text);
    assert forall l :: l in lines <==> l == lines[0] || l in lines[1..];
    assert Lines("") == [""];
    BlankIsNotCode();
  }

  lemma {:induction false} BlankIsNotCode()
    ensures !CodeLine("")
  {
  }

  lemma {:induction false} ExecutableIsLineCode(text: string)
    ensures Executable(text) <==> LineCode(text)
    decreases |text|
  {
    hide Executable, CodeLine, Strip;
    if text == "" {
      ExecutableSplitEmpty();
    } else if Break(text[0]) {
      ExecutableIsLineCode(text[1..]);
      ExecutableSplit(text);
      BlankIsNotCode();
    } else if Space(text[0]) {
      ExecutableIsLineCode(text[1..]);
      ExecutableSplit(text);
      ExecutableSplit(text[1..]);
      SpaceLine(text);
    } else {
      ExecutableSplit(text);
      LinesFront(text);
      CodeLineFront(Lines(text)[0]);
      ExecutableIsLineCode(AfterBreak(text));
    }
  }

  lemma {:induction false} ExecutableSplitEmpty()
    ensures !Executable("")
  {
    BlankIsNotCode();
  }

  lemma {:induction false} SpaceLine(text: string)
    requires text != "" && Space(text[0]) && !Break(text[0])
    ensures CodeLine(Lines(text)[0]) == CodeLine(Lines(text[1..])[0]) && AfterBreak(text) == AfterBreak(text[1..])
  {
    hide Strip;
    StripBlank(text[0], Lines(text[1..])[0]);
  }

  /** More text in front never hides a line of code. */
  lemma {:induction false} LineCodeBehind(text: string, k: nat)
    requires k < |text| && text[k] == '\n' && LineCode(text[k + 1..])
    ensures LineCode(text)
    decreases |text|
  {
    if Space(text[0]) {
      if k > 0 {
        assert text[1..][k - 1 + 1..] == text[k + 1..];
        LineCodeBehind(text[1..], k - 1);
      }
    } else if "--" <= text {
      BreakBehind(text, k);
    }
  }

  lemma {:induction false} BreakBehind(text: string, k: nat)
    requires k < |text| && text[k] == '\n' && LineCode(text[k + 1..])
    ensures LineCode(AfterBreak(text))
    decreases |text|, 0
  {
    if Break(text[0]) {
      if k > 0 {
        assert text[1..][k - 1 + 1..] == text[k + 1..];
        LineCodeBehind(text[1..], k - 1);
      }
    } else {
      assert text[1..][k - 1 + 1..] == text[k + 1..];
      BreakBehind(text[1..], k - 1);
    }
  }

  predicate PlainBreaks(text: string) {
    forall i :: 0 <= i < |text| && Break(text[i]) ==> text[i] == '\n'
  }

  /** From inside a comment, code lies behind the newline that ends it. */
  lemma {:induction false} CommentEnds(text: string) returns (k: nat)
    requires HasCode(text, Comment)
    ensures k < |text| && text[k] == '\n' && HasCode(text[k + 1..], Plain)
  {
    NextIs(text, Comment);
    if text[0] == '\n' {
      k := 0;
    } else {
      k := CommentEnds(text[1..]);
      k := k + 1;
      assert text[1..][k..] == text[k + 1..];
    }
  }

  lemma {:induction false} CodeAfterComment(text: string)
    ensures HasCode(text, Comment) ==> LineCode(AfterBreak(text))
    ensures PlainBreaks(text) && LineCode(AfterBreak(text)) ==> HasCode(text, Comment)
    decreases |text|, 0
  {
    if HasCode(text, Comment) {
      var k := CommentEnds(text);
      CodeIsLineCode(text[k + 1..]);
      BreakBehind(text, k);
    } else if text != "" && PlainBreaks(text) {
      NextIs(text, Comment);
      if text[0] == '\n' {
        CodeIsLineCode(text[1..]);
      } else {
        CodeAfterComment(text[1..]);
      }
    }
  }

  lemma {:induction false} CodeIsLineCode(text: string)
    ensures HasCode(text, Plain) ==> LineCode(text)
    ensures PlainBreaks(text) && LineCode(text) ==> HasCode(text, Plain)
    decreases |text|, 1
  {
    if text != "" {
      NextIs(text, Plain);
      if Space(text[0]) {
        CodeIsLineCode(text[1..]);
      } else if "--" <= text {
        CodeAfterComment(text[1..]);
      }
    }
  }

  /** Nothing executable is ever dropped, and where lines end in newlines only, everything else is. */
  lemma {:induction false} DroppedExactly(piece: string)
    ensures HasCode(piece, Plain) ==> Emit(piece) == [Strip(piece)]
    ensures PlainBreaks(piece) && !HasCode(piece, Plain) ==> Emit(piece) == []
  {
    ExecutableIsLineCode(piece);
    CodeIsLineCode(piece);
  }

  lemma {:induction false} FirstLine(line: string, end: char, rest: string)
    requires end in {'\n', '\r', '\U{000B}', '\U{000C}'}
    requires forall c <- line :: c !in {'\n', '\r', '\U{000B}', '\U{000C}'}
    ensures Lines(line) == [line] && Lines(line + [end] + rest) == [line] + Lines(rest)
  {
    if line == "" {
      assert line + [end] + rest == [end] + rest;
    } else {
      assert line[0] in line && forall c <- line[1..] :: c in line;
      FirstLine(line[1..], end, rest);
      assert [line[0]] + line[1..] == line;
      var text := line + [end] + rest;
      assert text[0] == line[0] && text[1..] == line[1..] + [end] + rest;
      assert Lines(text) == [[line[0]] + line[1..]] + Lines(rest);
    }
  }

  /** Executable, line by line: a line is unless it is blank or starts with two dashes, and a piece is if one
      of its lines is, whichever of the four characters ends them. */
  lemma {:induction false} ExecutableByLine(line: string, end: char, rest: string)
    requires end in {'\n', '\r', '\U{000B}', '\U{000C}'}
    requires forall c <- line :: c !in {'\n', '\r', '\U{000B}', '\U{000C}'}
    ensures Executable(line) <==> Strip(line) != "" && !("--" <= Strip(line))
    ensures Executable(line + [end] + rest) <==> Executable(line) || Executable(rest)
  {
    hide Lines, Strip;
    FirstLine(line, end, rest);
    assert line in Lines(line) && forall l <- Lines(line) :: l == line;
    assert forall l :: l in Lines(line + [end] + rest) <==> l == line || l in Lines(rest);
  }
}
