// BasicFormatter::format of format.h: literals, doubled braces, `{}` and `{n}`.
module BraceFormat {
  import opened DecimalDigits
  import opened DecimalParse

  datatype Error =
    | UnmatchedBrace     // a '}' that is not doubled
    | MissingBrace       // no '}' after the argument
    | InvalidFormat      // an argument error, and neither '}' nor ':' follows
    | OutOfRange
    | ManualToAuto
    | AutoToManual
    | NumberTooBig
    | OutsideModel       // a format specification or a named argument follows

  datatype Choice = Chosen(text: string, next: int) | Refused(error: Error)

  datatype Field = Arg(text: string, next: int, end: nat) | Bad(error: Error)

  datatype Status = Fine | Error(error: Error)

  /** What has been printed, whether an exception ended it, and the next
      automatic index (-1 once an explicit index was used). */
  datatype Rendered = Rendered(text: string, status: Status, next: int)
  {
    function After(front: string): Rendered { this.(text := front + text) }
  }

  predicate IsNameStart(c: char) { 'a' <= c <= 'z' || 'A' <= c <= 'Z' || c == '_' }

  function ArgAt(index: nat, next: int, args: seq<string>): Choice
  {
    if index < |args| then Chosen(args[index], next) else Refused(OutOfRange)
  }

  /** The argument of `{}`. */
  function NextArg(next: int, args: seq<string>): Choice
  {
    if next >= 0 then ArgAt(next, next + 1, args) else Refused(ManualToAuto)
  }

  /** The argument of `{index}`. */
  function GetArg(index: nat, next: int, args: seq<string>): Choice
  {
    if next > 0 then Refused(AutoToManual) else ArgAt(index, -1, args)
  }

  /** The argument chosen by the start of s; end is where its digits end. */
  function ChooseArg(s: string, end: nat, next: int, args: seq<string>): Choice
    requires end == RunEnd(s, 0)
  {
    if end == 0 then NextArg(next, args)
    else
      match Read(s[..end])
      case TooBig => Refused(NumberTooBig)
      case Number(index) => GetArg(index, next, args)
  }

  /** A replacement field; s starts behind its '{'. */
  function FieldAt(s: string, next: int, args: seq<string>): Field
  {
    var end := RunEnd(s, 0);
    var choice, follows := ChooseArg(s, end, next, args), At(s, end);
    if IsNameStart(At(s, 0)) then Bad(OutsideModel)
    else if choice.Refused? then
      Bad(if choice.error != NumberTooBig && follows != '}' && follows != ':' then InvalidFormat else choice.error)
    else if follows == ':' then Bad(OutsideModel)
    else if follows != '}' then Bad(MissingBrace)
    else Arg(choice.text, choice.next, end + 1)
  }

  /** What a format string prints. */
  function Render(s: string, next: int, args: seq<string>): Rendered
  {
    var c := At(s, 0);
    if c == '\0' then Rendered("", Fine, next)
    else if c != '{' && c != '}' then Render(s[1..], next, args).After([c])
    else if At(s, 1) == c then Render(s[2..], next, args).After([c])
    else if c == '}' then Rendered("", Status.Error(UnmatchedBrace), next)
    else
      match FieldAt(s[1..], next, args)
      case Bad(error) => Rendered("", Status.Error(error), next)
      case Arg(text, next', end) => Render(s[1 + end..], next', args).After(text)
  }

  predicate IsBrace(c: char) { c == '{' || c == '}' }

  lemma PlainStep(s: string, i: nat, next: int, args: seq<string>)
    requires i < |s| && s[i] != '\0' && !IsBrace(s[i])
    ensures Render(s[i..], next, args) == Render(s[i + 1..], next, args).After([s[i]])
  {
    assert s[i..][1..] == s[i + 1..];
  }

  lemma DoubledStep(s: string, i: nat, next: int, args: seq<string>)
    requires i + 1 < |s| && IsBrace(s[i]) && s[i + 1] == s[i]
    ensures Render(s[i..], next, args) == Render(s[i + 2..], next, args).After([s[i]])
  {
    assert s[i..][2..] == s[i + 2..];
  }

  lemma UnmatchedStep(s: string, i: nat, next: int, args: seq<string>)
    requires i < |s| && s[i] == '}' && At(s, i + 1) != '}'
    ensures Render(s[i..], next, args) == Rendered("", Status.Error(UnmatchedBrace), next)
  {
    assert At(s[i..], 1) == At(s, i + 1);
  }

  lemma FieldStep(s: string, i: nat, next: int, args: seq<string>)
    requires i < |s| && s[i] == '{' && At(s, i + 1) != '{'
    ensures Render(s[i..], next, args) ==
            match FieldAt(s[i + 1..], next, args)
            case Bad(error) => Rendered("", Status.Error(error), next)
            case Arg(text, next', end) => Render(s[i + 1..][end..], next', args).After(text)
  {
    assert At(s[i..], 1) == At(s, i + 1) && s[i..][1..] == s[i + 1..];
    var field := FieldAt(s[i + 1..], next, args);
    if field.Arg? {
      assert s[i..][1 + field.end..] == s[i + 1..][field.end..];
    }
  }

  // ---- Templates: literals and fields ----

  datatype Piece = Literal(text: string) | Auto | Manual(index: nat)

  /** Doubles every brace. */
  function Escape(text: string): string
  {
    if text == "" then ""
    else (if IsBrace(text[0]) then [text[0], text[0]] else [text[0]]) + Escape(text[1..])
  }

  function Write(piece: Piece): string
  {
    match piece
    case Literal(text) => Escape(text)
    case Auto => "{}"
    case Manual(index) => "{" + Decimal(index) + "}"
  }

  function Template(pieces: seq<Piece>): string
  {
    if pieces == [] then "" else Write(pieces[0]) + Template(pieces[1..])
  }

  function ChoiceOf(piece: Piece, next: int, args: seq<string>): Choice
  {
    match piece
    case Literal(text) => Chosen(text, next)
    case Auto => NextArg(next, args)
    case Manual(index) => if index > INT_MAX then Refused(NumberTooBig) else GetArg(index, next, args)
  }

  /** What the template is meant to print: each piece in turn, up to the first
      argument that cannot be had. */
  function Printed(pieces: seq<Piece>, next: int, args: seq<string>): Rendered
  {
    if pieces == [] then Rendered("", Fine, next)
    else
      match ChoiceOf(pieces[0], next, args)
      case Refused(error) => Rendered("", Status.Error(error), next)
      case Chosen(text, next') => Printed(pieces[1..], next', args).After(text)
  }

  predicate NulFree(s: string) { forall i :: 0 <= i < |s| ==> s[i] != '\0' }

  /** Literals hold no NUL, and indices are such that reading them back does
      not wrap. */
  predicate WellFormed(pieces: seq<Piece>)
  {
    forall i :: 0 <= i < |pieces| ==>
      match pieces[i]
      case Literal(text) => NulFree(text)
      case Auto => true
      case Manual(index) => index < UINT_RANGE
  }

  lemma {:induction false} EscapedRenders(text: string, rest: string, next: int, args: seq<string>)
    requires NulFree(text)
    ensures Render(Escape(text) + rest, next, args) == Render(rest, next, args).After(text)
  {
    if text == "" {
      assert "" + rest == rest;
    } else {
      var s, tail := Escape(text) + rest, Escape(text[1..]) + rest;
      EscapedRenders(text[1..], rest, next, args);
      assert s == (if IsBrace(text[0]) then [text[0], text[0]] else [text[0]]) + tail;
      assert text[0] != '\0';
      hide Render, Escape, NulFree;
      assert s[0..] == s && [text[0]] + text[1..] == text;
      if IsBrace(text[0]) {
        DoubledStep(s, 0, next, args);
        assert s[2..] == tail;
      } else {
        PlainStep(s, 0, next, args);
        assert s[1..] == tail;
      }
      AfterTwice(Render(rest, next, args), text[1..], [text[0]]);
    }
  }

  lemma AfterTwice(r: Rendered, near: string, far: string)
    ensures r.After(near).After(far) == r.After(far + near)
  {
  }

  lemma {:induction false} RunEndOfDigits(d: string, rest: string, i: nat)
    requires AllDigits(d) && i <= |d| && (rest != "" ==> !IsDigit(rest[0]))
    ensures RunEnd(d + rest, i) == |d|
    decreases |d| - i
  {
    if i < |d| {
      RunEndOfDigits(d, rest, i + 1);
    }
  }

  lemma AutoField(rest: string, next: int, args: seq<string>)
    ensures FieldAt("}" + rest, next, args) ==
            match NextArg(next, args)
            case Refused(error) => Bad(error)
            case Chosen(text, next') => Arg(text, next', 1)
  {
    RunEndOfDigits("", "}" + rest, 0);
    assert "" + ("}" + rest) == "}" + rest;
  }

  lemma ManualField(index: nat, rest: string, next: int, args: seq<string>)
    requires index < UINT_RANGE
    ensures FieldAt(Decimal(index) + ("}" + rest), next, args) ==
            match ChoiceOf(Manual(index), next, args)
            case Refused(error) => Bad(error)
            case Chosen(text, next') => Arg(text, next', |Decimal(index)| + 1)
  {
    var d := Decimal(index);
    var s := d + ("}" + rest);
    RunEndOfDigits(d, "}" + rest, 0);
    assert s[..|d|] == d && At(s, |d|) == '}' && IsDigit(At(s, 0));
    ValueOfDecimal(index);
    ReadBelowWrap(d);
  }

  /** What formatting does once a field is chosen, or refused. */
  function Continue(choice: Choice, rest: string, next: int, args: seq<string>): Rendered
  {
    match choice
    case Refused(error) => Rendered("", Status.Error(error), next)
    case Chosen(text, next') => Render(rest, next', args).After(text)
  }

  lemma AutoRenders(rest: string, next: int, args: seq<string>)
    ensures Render("{}" + rest, next, args) == Continue(NextArg(next, args), rest, next, args)
  {
    var s := "{}" + rest;
    AutoField(rest, next, args);
    assert s[1..] == "}" + rest && s[1 + 1..] == rest;
    hide FieldAt, NextArg;
    assert At(s, 0) == '{' && At(s, 1) == '}';
  }

  lemma ManualRenders(index: nat, rest: string, next: int, args: seq<string>)
    requires index < UINT_RANGE
    ensures Render("{" + Decimal(index) + "}" + rest, next, args)
            == Continue(ChoiceOf(Manual(index), next, args), rest, next, args)
  {
    var d := Decimal(index);
    var s := "{" + d + "}" + rest;
    ManualField(index, rest, next, args);
    assert s[1..] == d + ("}" + rest) && s[1 + (|d| + 1)..] == rest && s[1] == d[0];
    hide FieldAt, ChoiceOf, Decimal;
    assert At(s, 0) == '{' && At(s, 1) != '{';
  }

  lemma PieceRenders(piece: Piece, rest: string, next: int, args: seq<string>)
    requires WellFormed([piece])
    ensures Render(Write(piece) + rest, next, args) == Continue(ChoiceOf(piece, next, args), rest, next, args)
  {
    assert [piece][0] == piece;
    hide Render;
    match piece {
      case Literal(text) => EscapedRenders(text, rest, next, args);
      case Auto => AutoRenders(rest, next, args);
      case Manual(index) => ManualRenders(index, rest, next, args);
    }
  }

  /** What follows once the pieces of a template are printed, if they are. */
  function Then(printed: Rendered, rest: string, args: seq<string>): Rendered
  {
    if printed.status.Fine? then Render(rest, printed.next, args).After(printed.text) else printed
  }

  lemma {:induction false} TemplateThen(pieces: seq<Piece>, rest: string, next: int, args: seq<string>)
    requires WellFormed(pieces)
    ensures Render(Template(pieces) + rest, next, args) == Then(Printed(pieces, next, args), rest, args)
  {
    if pieces == [] {
      assert "" + rest == rest;
    } else {
      assert WellFormed([pieces[0]]) && WellFormed(pieces[1..]);
      var tail := Template(pieces[1..]) + rest;
      assert Template(pieces) + rest == Write(pieces[0]) + tail;
      PieceRenders(pieces[0], tail, next, args);
      var choice := ChoiceOf(pieces[0], next, args);
      if choice.Chosen? {
        TemplateThen(pieces[1..], rest, choice.next, args);
        var printed := Printed(pieces[1..], choice.next, args);
        hide Render, Printed, Template, Write, ChoiceOf, WellFormed;
        AfterTwice(Render(rest, printed.next, args), printed.text, choice.text);
      }
    }
  }

  /** Formatting a template prints its pieces, or fails where they fail. */
  lemma TemplateRenders(pieces: seq<Piece>, next: int, args: seq<string>)
    requires WellFormed(pieces)
    ensures Render(Template(pieces), next, args) == Printed(pieces, next, args)
  {
    TemplateThen(pieces, "", next, args);
    assert Template(pieces) + "" == Template(pieces);
    assert Render("", Printed(pieces, next, args).next, args).text == "";
  }

  /** A brace left over at the end of a template that prints is an error: one
      that closes nothing, or one that opens a field and is not closed. */
  lemma LeftOverBrace(pieces: seq<Piece>, args: seq<string>)
    requires WellFormed(pieces) && Printed(pieces, 0, args).status.Fine?
    ensures Render(Template(pieces) + "}", 0, args).status == Status.Error(UnmatchedBrace)
    ensures Render(Template(pieces) + "{", 0, args).status
            == Status.Error(if 0 <= Printed(pieces, 0, args).next < |args| then MissingBrace else InvalidFormat)
    ensures Render(Template(pieces) + "}", 0, args).text == Printed(pieces, 0, args).text
    ensures Render(Template(pieces) + "{", 0, args).text == Printed(pieces, 0, args).text
  {
    var p := Printed(pieces, 0, args);
    TemplateThen(pieces, "}", 0, args);
    TemplateThen(pieces, "{", 0, args);
    assert "{"[1..] == "" && p.text + "" == p.text;
    hide Printed, Template, WellFormed;
  }

  /** Escaping and formatting undo each other on every NUL-free string. */
  lemma {:induction false} EscapeRoundTrip(text: string, args: seq<string>)
    requires NulFree(text)
    ensures Render(Escape(text), 0, args) == Rendered(text, Fine, 0)
  {
    EscapedRenders(text, "", 0, args);
    assert Escape(text) + "" == Escape(text) && text + "" == text;
  }

  // ---- Which templates print, and what ----

  function Count(pieces: seq<Piece>): nat
  {
    if pieces == [] then 0 else (if pieces[0].Auto? then 1 else 0) + Count(pieces[1..])
  }

  predicate NoManual(pieces: seq<Piece>) { forall i :: 0 <= i < |pieces| ==> !pieces[i].Manual? }

  predicate IndicesFit(pieces: seq<Piece>, args: seq<string>)
  {
    forall i :: 0 <= i < |pieces| && pieces[i].Manual? ==> pieces[i].index < |args| && pieces[i].index <= INT_MAX
  }

  /** Automatic fields only, and enough arguments; or explicit fields only,
      all of them in range. */
  predicate Printable(pieces: seq<Piece>, args: seq<string>)
  {
    (NoManual(pieces) && Count(pieces) <= |args|) || (Count(pieces) == 0 && IndicesFit(pieces, args))
  }

  function ArgOrEmpty(args: seq<string>, k: nat): string { if k < |args| then args[k] else "" }

  /** Literals interleaved with arguments: k, k + 1, ... in order for `{}`, the
      named position for `{n}`. */
  function Interleaved(pieces: seq<Piece>, k: nat, args: seq<string>): string
  {
    if pieces == [] then ""
    else
      match pieces[0]
      case Literal(text) => text + Interleaved(pieces[1..], k, args)
      case Auto => ArgOrEmpty(args, k) + Interleaved(pieces[1..], k + 1, args)
      case Manual(index) => ArgOrEmpty(args, index) + Interleaved(pieces[1..], k, args)
  }

  lemma {:induction false} AutoTemplatePrints(pieces: seq<Piece>, k: nat, args: seq<string>)
    requires NoManual(pieces) && k <= |args|
    ensures var p := Printed(pieces, k, args);
      if k + Count(pieces) <= |args| then p.status.Fine? && p.text == Interleaved(pieces, k, args)
      else p.status == Status.Error(OutOfRange)
  {
    if pieces != [] {
      assert pieces[0] in pieces;
      if pieces[0].Literal? {
        AutoTemplatePrints(pieces[1..], k, args);
      } else if k < |args| {
        AutoTemplatePrints(pieces[1..], k + 1, args);
      }
    }
  }

  lemma {:induction false} ManualTemplatePrints(pieces: seq<Piece>, next: int, args: seq<string>)
    requires Count(pieces) == 0 && -1 <= next <= 0
    ensures var p := Printed(pieces, next, args);
      (p.status.Fine? <==> IndicesFit(pieces, args)) && (p.status.Fine? ==> p.text == Interleaved(pieces, 0, args))
  {
    if pieces != [] {
      assert pieces == [pieces[0]] + pieces[1..];
      var choice := ChoiceOf(pieces[0], next, args);
      if choice.Chosen? {
        ManualTemplatePrints(pieces[1..], choice.next, args);
      }
    }
  }

  lemma {:induction false} PrintedKeepsMode(pieces: seq<Piece>, next: int, args: seq<string>)
    requires Printed(pieces, next, args).status.Fine? && next >= -1
    ensures next == -1 ==> Count(pieces) == 0
    ensures next > 0 ==> NoManual(pieces)
    ensures Count(pieces) == 0 || NoManual(pieces)
  {
    if pieces != [] {
      var choice := ChoiceOf(pieces[0], next, args);
      PrintedKeepsMode(pieces[1..], choice.next, args);
      assert pieces == [pieces[0]] + pieces[1..];
    }
  }

  /** Doubled-brace literals between fields print as the literals between the
      arguments in order, exactly when the indexing is not mixed and every
      argument exists. */
  lemma TemplatePrintsIff(pieces: seq<Piece>, args: seq<string>)
    requires WellFormed(pieces)
    ensures var r := Render(Template(pieces), 0, args);
      (r.status.Fine? <==> Printable(pieces, args))
      && (Printable(pieces, args) ==> r.text == Interleaved(pieces, 0, args))
  {
    TemplateRenders(pieces, 0, args);
    if NoManual(pieces) {
      AutoTemplatePrints(pieces, 0, args);
    }
    if Count(pieces) == 0 {
      ManualTemplatePrints(pieces, 0, args);
    }
    if Printed(pieces, 0, args).status.Fine? {
      PrintedKeepsMode(pieces, 0, args);
    }
  }

  // ---- The loop ----

  /** The formatter; args holds the printed form of every argument. */
  class BasicFormatter {
    const args: seq<string>
    var nextArgIndex: int
    var output: string

    constructor (args: seq<string>)
      ensures this.args == args && nextArgIndex == 0 && output == ""
    {
      this.args := args;
      nextArgIndex := 0;
      output := "";
    }

    method TakeNextArg() returns (choice: Choice)
      modifies this`nextArgIndex
      ensures choice == NextArg(old(nextArgIndex), args)
      ensures choice == Refused(ManualToAuto) <==> old(nextArgIndex) < 0
      ensures choice == Refused(OutOfRange) <==> old(nextArgIndex) >= |args|
      ensures 0 <= old(nextArgIndex) < |args| ==> choice == Chosen(args[old(nextArgIndex)], old(nextArgIndex) + 1)
      ensures choice.Chosen? ==> nextArgIndex == choice.next
    {
      if nextArgIndex >= 0 {
        nextArgIndex := nextArgIndex + 1;
        choice := ArgAt(nextArgIndex - 1, nextArgIndex, args);
      } else {
        choice := Refused(ManualToAuto);
      }
    }

    method TakeArg(index: nat) returns (choice: Choice)
      modifies this`nextArgIndex
      ensures choice == GetArg(index, old(nextArgIndex), args)
      ensures choice == Refused(AutoToManual) <==> old(nextArgIndex) > 0
      ensures choice == Refused(OutOfRange) <==> old(nextArgIndex) <= 0 && index >= |args|
      ensures old(nextArgIndex) <= 0 && index < |args| ==> choice == Chosen(args[index], -1)
      ensures choice.Chosen? ==> nextArgIndex == choice.next
    {
      if nextArgIndex > 0 {
        return Refused(AutoToManual);
      }
      nextArgIndex := -1;
      choice := ArgAt(index, -1, args);
    }

    /** parse_arg_index followed by format(s, arg) without a specification; i
        is behind the '{'. */
    method FormatField(s: string, i: nat) returns (field: Field)
      requires i <= |s|
      modifies this
      ensures field == FieldAt(s[i..], old(nextArgIndex), args)
      ensures field.Arg? ==> nextArgIndex == field.next && output == old(output) + field.text && i + field.end <= |s|
      ensures field.Bad? ==> output == old(output)
    {
      if IsNameStart(At(s, i)) {
        assert At(s[i..], 0) == At(s, i);
        return Bad(OutsideModel);
      }
      var choice, j := Refused(OutOfRange), i;
      RunEndShift(s, i);
      if !IsDigit(At(s, i)) {
        choice := TakeNextArg();
      } else {
        var r;
        r, j := ParseNonnegativeInt(s, i);
        assert s[i..RunEnd(s, i)] == s[i..][..RunEnd(s, i) - i];
        if r.TooBig? {
          return Bad(NumberTooBig);
        }
        choice := TakeArg(r.value);
      }
      assert At(s[i..], j - i) == At(s, j);
      if choice.Refused? {
        return Bad(if At(s, j) != '}' && At(s, j) != ':' then InvalidFormat else choice.error);
      }
      if At(s, j) == ':' {
        return Bad(OutsideModel);
      }
      if At(s, j) != '}' {
        return Bad(MissingBrace);
      }
      output := output + choice.text;
      field := Arg(choice.text, nextArgIndex, j + 1 - i);
    }

    /** write(): the literal from start to end goes out. */
    method WriteLiteral(s: string, start: nat, end: nat)
      requires start <= end <= |s|
      modifies this`output
      ensures output == old(output) + s[start..end]
    {
      if start != end {
        output := output + s[start..end];
      }
    }

    /** Writes the pending literal, then the field behind the '{' before i. */
    method FlushAndFormatField(s: string, start: nat, i: nat, ghost all: Rendered, ghost was: string)
      returns (field: Field)
      requires 0 < i <= |s| && s[i - 1] == '{' && At(s, i) != '{'
      requires Along(all, was, s, start, i - 1, nextArgIndex, args, output)
      modifies this
      ensures field.Arg? ==>
        i + field.end <= |s| && Along(all, was, s, i + field.end, i + field.end, nextArgIndex, args, output)
      ensures field.Bad? ==> all.status == Status.Error(field.error) && was <= output == all.text
    {
      FieldKept(all, was, s, start, i, nextArgIndex, args, output);
      AlongGrows(all, was, s, start, i - 1, nextArgIndex, args, output);
      hide Along, FieldAt;
      WriteLiteral(s, start, i - 1);
      field := FormatField(s, i);
    }

    /** What the loop does behind a brace: i is behind it, next is where the
        next literal starts. */
    method FormatBrace(s: string, start: nat, i: nat, ghost all: Rendered, ghost was: string)
      returns (status: Status, next: nat)
      requires 0 < i <= |s| && (s[i - 1] == '{' || s[i - 1] == '}')
      requires Along(all, was, s, start, i - 1, nextArgIndex, args, output)
      modifies this
      ensures status.Fine? ==> i <= next <= |s| && Along(all, was, s, next, next, nextArgIndex, args, output)
      ensures status.Error? ==> all.status == status && was <= output <= all.text
      ensures status.Error? && !status.error.UnmatchedBrace? ==> output == all.text
    {
      hide Along, Rendered.After, FieldAt;
      AlongGrows(all, was, s, start, i - 1, nextArgIndex, args, output);
      var c := s[i - 1];
      next := i;
      if At(s, i) == c {
        DoubledKept(all, was, s, start, i - 1, nextArgIndex, args, output);
        WriteLiteral(s, start, i);
        return Fine, i + 1;
      }
      if c == '}' {
        StopsUnmatched(all, was, s, start, i - 1, nextArgIndex, args, output);
        return Status.Error(UnmatchedBrace), i;
      }
      var field := FlushAndFormatField(s, start, i, all, was);
      if field.Bad? {
        return Status.Error(field.error), i;
      }
      return Fine, i + field.end;
    }

    /** An exception leaves in the output all that precedes it, except that the
        literal before an unmatched '}' is not flushed. */
    method Format(s: string) returns (status: Status)
      modifies this
      ensures var r := Render(s, old(nextArgIndex), args);
        && status == r.status
        && (status.Fine? ==> nextArgIndex == r.next)
        && (if status == Status.Error(UnmatchedBrace) then old(output) <= output <= old(output) + r.text
            else output == old(output) + r.text)
    {
      var i: nat, start: nat := 0, 0;
      ghost var was, r := output, Render(s, nextArgIndex, args);
      ghost var all := r.After(was);
      assert all.text == was + r.text && all.status == r.status && all.next == r.next;
      assert Along(all, was, s, start, i, nextArgIndex, args, output) by {
        assert s[0..] == s && output + "" == output;
      }
      hide Render, Rendered.After, Along, FieldAt;
      while At(s, i) != '\0'
        invariant start <= i <= |s|
        invariant Along(all, was, s, start, i, nextArgIndex, args, output)
        decreases |s| - i
      {
        var c := At(s, i);
        i := i + 1;
        if c != '{' && c != '}' {
          PlainKept(all, was, s, start, i - 1, nextArgIndex, args, output);
          continue;
        }
        status, i := FormatBrace(s, start, i, all, was);
        if status.Error? {
          return status;
        }
        start := i;
      }
      Finishes(all, was, s, start, i, nextArgIndex, args, output);
      WriteLiteral(s, start, i);
      status := Fine;
    }
  }

  /** The output has only grown. What is to be printed in all is the output so
      far, the literal from start to i that is still to be written, and what the
      rest from i on prints. */
  ghost predicate Along(all: Rendered, was: string, s: string, start: nat, i: nat, next: int, args: seq<string>,
                        output: string)
  {
    was <= output && start <= i <= |s| && all == Render(s[i..], next, args).After(output + s[start..i])
  }

  lemma AlongGrows(all: Rendered, was: string, s: string, start: nat, i: nat, next: int, args: seq<string>,
                   output: string)
    requires Along(all, was, s, start, i, next, args, output)
    ensures was <= output && start <= i <= |s|
  {
  }

  lemma PlainKept(all: Rendered, was: string, s: string, start: nat, i: nat, next: int, args: seq<string>,
                  output: string)
    requires Along(all, was, s, start, i, next, args, output)
    requires i < |s| && s[i] != '\0' && s[i] != '{' && s[i] != '}'
    ensures Along(all, was, s, start, i + 1, next, args, output)
  {
    PlainStep(s, i, next, args);
    hide Render;
    AfterTwice(Render(s[i + 1..], next, args), [s[i]], output + s[start..i]);
    assert output + s[start..i] + [s[i]] == output + s[start..i + 1];
  }

  lemma DoubledKept(all: Rendered, was: string, s: string, start: nat, i: nat, next: int, args: seq<string>,
                    output: string)
    requires Along(all, was, s, start, i, next, args, output)
    requires i + 1 < |s| && (s[i] == '{' || s[i] == '}') && s[i + 1] == s[i]
    ensures Along(all, was, s, i + 2, i + 2, next, args, output + s[start..i + 1])
  {
    DoubledStep(s, i, next, args);
    hide Render;
    AfterTwice(Render(s[i + 2..], next, args), [s[i]], output + s[start..i]);
    assert output + s[start..i] + [s[i]] == output + s[start..i + 1] + s[i + 2..i + 2];
  }

  lemma StopsUnmatched(all: Rendered, was: string, s: string, start: nat, i: nat, next: int, args: seq<string>,
                       output: string)
    requires Along(all, was, s, start, i, next, args, output)
    requires i < |s| && s[i] == '}' && At(s, i + 1) != '}'
    ensures all.status == Status.Error(UnmatchedBrace) && was <= output <= all.text
  {
    UnmatchedStep(s, i, next, args);
    assert output + s[start..i] + "" == output + s[start..i];
  }

  /** i is behind the '{' here. */
  lemma FieldKept(all: Rendered, was: string, s: string, start: nat, i: nat, next: int, args: seq<string>,
                  output: string)
    requires 0 < i <= |s| && Along(all, was, s, start, i - 1, next, args, output)
    requires s[i - 1] == '{' && At(s, i) != '{'
    ensures start <= i - 1
    ensures var field, written := FieldAt(s[i..], next, args), output + s[start..i - 1];
      && (field.Bad? ==> all.status == Status.Error(field.error) && all.text == written)
      && (field.Arg? ==> Along(all, was, s, i + field.end, i + field.end, field.next, args, written + field.text))
  {
    var field, written := FieldAt(s[i..], next, args), output + s[start..i - 1];
    FieldStep(s, i - 1, next, args);
    if field.Arg? {
      var j := i + field.end;
      FieldEnds(s[i..], next, args);
      assert s[i..][field.end..] == s[j..];
      hide Render, FieldAt;
      AfterTwice(Render(s[j..], field.next, args), field.text, written);
      assert written + field.text == written + field.text + s[j..j];
    } else {
      assert written + "" == written;
    }
  }

  lemma FieldEnds(s: string, next: int, args: seq<string>)
    ensures FieldAt(s, next, args).Arg? ==> FieldAt(s, next, args).end <= |s|
  {
  }

  lemma Finishes(all: Rendered, was: string, s: string, start: nat, i: nat, next: int, args: seq<string>,
                 output: string)
    requires Along(all, was, s, start, i, next, args, output) && At(s, i) == '\0'
    ensures all == Rendered(output + s[start..i], Fine, next)
  {
    RenderEnd(s, i, next, args);
    assert output + s[start..i] + "" == output + s[start..i];
  }

  lemma RenderEnd(s: string, i: nat, next: int, args: seq<string>)
    requires i <= |s| && At(s, i) == '\0'
    ensures Render(s[i..], next, args) == Rendered("", Fine, next)
  {
    assert At(s[i..], 0) == At(s, i);
  }

  lemma RunEndShift(s: string, i: nat)
    requires i <= |s|
    ensures RunEnd(s[i..], 0) == RunEnd(s, i) - i
  {
    RunEndShiftFrom(s, i, 0);
  }

  lemma {:induction false} RunEndShiftFrom(s: string, i: nat, k: nat)
    requires i + k <= |s|
    ensures RunEnd(s[i..], k) == RunEnd(s, i + k) - i
    decreases |s| - k
  {
    if i + k < |s| && IsDigit(s[i + k]) {
      RunEndShiftFrom(s, i, k + 1);
    }
  }
}
