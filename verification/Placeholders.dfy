/** `${...}` placeholders in a config (crates/core/src/config.rs). */
module Placeholders {
  import opened Basics
  import opened Text

  datatype Fault = Unterminated | EmptyName | NoSecret(name: string) | NoVariable(name: string)

  const OPEN := "${"

  /** What placeholder names stand for. */
  datatype World = World(secrets: map<string, string>, env: map<string, string>) {
    function Value(name: string): Result<string, Fault> {
      if IsSecret(name) then
        if name in secrets then Ok(secrets[name]) else Err(NoSecret(name))
      else
        if name in env then Ok(env[name]) else Err(NoVariable(name))
    }
  }

  predicate IsSecret(name: string) {
    ':' in name
  }

  /* ----- reference: one left-to-right split ----- */

  datatype Piece = Literal(text: string) | Name(name: string)

  /** The first placeholder of a text: the text before it, its name, and the text after it. */
  datatype Mark = Absent | Bad(fault: Fault) | At(before: string, name: string, rest: string)

  function FirstMark(s: string): (m: Mark)
    ensures m.At? ==> |m.rest| < |s|
  {
    match SplitAt(s, OPEN)
    case None => Absent
    case Some((before, after)) =>
      match SplitAt(after, "}")
      case None => Bad(Unterminated)
      case Some((name, rest)) => if name == "" then Bad(EmptyName) else At(before, name, rest)
  }

  /** Cuts text into literals and names, left to right. */
  function Pieces(s: string): (r: Result<seq<Piece>, Fault>)
    decreases |s|
  {
    match FirstMark(s)
    case Absent => Ok([Literal(s)])
    case Bad(f) => Err(f)
    case At(before, name, rest) =>
      match Pieces(rest)
      case Err(f) => Err(f)
      case Ok(more) => Ok([Literal(before), Name(name)] + more)
  }

  function Written(name: string): string {
    OPEN + name + "}"
  }

  function Source(pieces: seq<Piece>): string {
    if pieces == [] then ""
    else (match pieces[0] case Literal(t) => t case Name(n) => Written(n)) + Source(pieces[1..])
  }

  function NamesIn(pieces: seq<Piece>): seq<string> {
    if pieces == [] then []
    else if pieces[0].Name? then [pieces[0].name] + NamesIn(pieces[1..])
    else NamesIn(pieces[1..])
  }

  /** Puts the values in place; they are not looked at again. */
  function Substitute(pieces: seq<Piece>, w: World): Result<string, Fault> {
    if pieces == [] then Ok("")
    else
      match pieces[0]
      case Literal(t) =>
        (match Substitute(pieces[1..], w) case Err(f) => Err(f) case Ok(rest) => Ok(t + rest))
      case Name(n) =>
        (match w.Value(n)
         case Err(f) => Err(f)
         case Ok(v) => match Substitute(pieces[1..], w) case Err(f) => Err(f) case Ok(rest) => Ok(v + rest))
  }

  lemma Unfold(before: string, name: string, more: seq<Piece>, w: World)
    ensures var all := [Literal(before), Name(name)] + more;
            && Source(all) == before + (Written(name) + Source(more))
            && NamesIn(all) == [name] + NamesIn(more)
            && Substitute(all, w) ==
               (match w.Value(name)
                case Err(f) => Err(f)
                case Ok(v) => match Substitute(more, w) case Err(f) => Err(f) case Ok(rest) => Ok(before + (v + rest)))
  {
    var all := [Literal(before), Name(name)] + more;
    assert all[1..] == [Name(name)] + more && all[1..][1..] == more;
  }

  lemma UnfoldPlain(s: string, w: World)
    ensures Source([Literal(s)]) == s && NamesIn([Literal(s)]) == [] && Substitute([Literal(s)], w) == Ok(s)
  {
    assert [Literal(s)][1..] == [] && s + "" == s;
  }

  lemma MarkParts(s: string, before: string, name: string, rest: string)
    requires FirstMark(s) == At(before, name, rest)
    ensures |before| == IndexOf(s, OPEN) && s == before + (OPEN + (name + ("}" + rest)))
  {
    var after := SplitAt(s, OPEN).value.1;
    SplitAtParts(s, OPEN, before, after);
    SplitAtParts(after, "}", name, rest);
  }

  /** A placeholder is cut out of exactly where it is written, and searching for
      it again by its name finds that very place. */
  lemma MarkIsThere(s: string, before: string, name: string, rest: string)
    requires FirstMark(s) == At(before, name, rest)
    ensures s == before + (Written(name) + rest)
    ensures IndexOf(s, Written(name)) == |before|
  {
    MarkParts(s, before, name, rest);
    WrittenTogether(name, rest);
    var tail := Written(name) + rest;
    assert s == before + tail;
    StandsAt(before, tail, Written(name));
    SameSearch(s, OPEN, Written(name));
  }

  lemma WrittenTogether(name: string, rest: string)
    ensures OPEN + (name + ("}" + rest)) == Written(name) + rest
    ensures OPEN <= Written(name) <= Written(name) + rest
  {
  }

  lemma StandsAt(before: string, tail: string, part: string)
    requires part <= tail
    ensures part <= (before + tail)[|before|..]
  {
    assert (before + tail)[|before|..] == tail;
  }

  lemma DropJoined(before: string, mark: string, rest: string)
    ensures (before + (mark + rest))[..|before|] == before
    ensures (before + (mark + rest))[|before| + |mark|..] == rest
  {
  }

  /** Where the start of a longer text is first found, the longer one is too, if it stands there. */
  lemma SameSearch(s: string, short: string, long: string)
    requires short != [] && short <= long && IndexOf(s, short) < |s| && long <= s[IndexOf(s, short)..]
    ensures IndexOf(s, long) == IndexOf(s, short)
  {
    NotBefore(s, long, IndexOf(s, short));
    var found := IndexOf(s, long);
    assert short <= s[found..];
    NotBefore(s, short, found);
  }

  /** The pieces make up the text again: none of it is lost or moved. */
  lemma {:induction false} PiecesMakeTheText(s: string)
    ensures Pieces(s).Ok? ==> Source(Pieces(s).value) == s
    decreases |s|
  {
    var w := World(map[], map[]);
    match FirstMark(s)
    case Absent => UnfoldPlain(s, w);
    case Bad(_) =>
    case At(before, name, rest) =>
      PiecesMakeTheText(rest);
      if Pieces(rest).Ok? {
        MarkIsThere(s, before, name, rest);
        Unfold(before, name, Pieces(rest).value, w);
      }
  }

  /** Literals and names in turn, a literal at both ends. No literal holds the mark that
      opens a name, and no name is empty or holds the one that closes it. */
  predicate WellCut(pieces: seq<Piece>)
    decreases |pieces|
  {
    && pieces != [] && pieces[0].Literal? && !Contains(pieces[0].text, OPEN)
    && (|pieces| == 1
        || (|pieces| > 2 && pieces[1].Name? && pieces[1].name != "" && '}' !in pieces[1].name && WellCut(pieces[2..])))
  }

  lemma {:induction false} NotInside(before: string, rest: string)
    requires !Contains(before, OPEN)
    ensures IndexOf(before + (OPEN + rest), OPEN) == |before|
  {
    var s := before + (OPEN + rest);
    if before == [] {
      assert OPEN <= s;
    } else {
      assert s[1..] == before[1..] + (OPEN + rest);
      NoMarkAhead(before, rest);
      NotInside(before[1..], rest);
    }
  }

  lemma NoMarkAhead(before: string, rest: string)
    requires before != [] && !Contains(before, OPEN)
    ensures !(OPEN <= before + (OPEN + rest)) && !Contains(before[1..], OPEN)
  {
    var s := before + (OPEN + rest);
    assert s[1] == if |before| > 1 then before[1] else '$';
  }

  lemma FirstIsCut(before: string, name: string, rest: string)
    requires !Contains(before, OPEN) && name != "" && '}' !in name
    ensures FirstMark(before + (Written(name) + rest)) == At(before, name, rest)
  {
    var s, after := before + (Written(name) + rest), name + ("}" + rest);
    WrittenTogether(name, rest);
    NotInside(before, after);
    DropJoined(before, OPEN, after);
    IndexOfJoined(name, '}', rest);
    assert after == name + ['}'] + rest;
    assert after[..|name|] == name && after[|name| + 1..] == rest;
  }

  /** Well-cut pieces are the cut of the text they make up: it is cut in one way only. */
  lemma {:induction false} CutIsTheOnlyOne(pieces: seq<Piece>)
    requires WellCut(pieces)
    ensures Pieces(Source(pieces)) == Ok(pieces)
    decreases |pieces|
  {
    var w := World(map[], map[]);
    var before := pieces[0].text;
    if |pieces| == 1 {
      UnfoldPlain(before, w);
      assert pieces == [Literal(before)];
    } else {
      var name, more := pieces[1].name, pieces[2..];
      assert pieces == [Literal(before), Name(name)] + more;
      Unfold(before, name, more, w);
      CutIsTheOnlyOne(more);
      FirstIsCut(before, name, Source(more));
    }
  }

  lemma {:induction false} PrefixHasNone(s: string)
    ensures !Contains(s[..IndexOf(s, OPEN)], OPEN)
  {
    var before := s[..IndexOf(s, OPEN)];
    if Contains(before, OPEN) {
      var k := IndexOf(before, OPEN);
      assert before[k..] <= s[k..];
      NotBefore(s, OPEN, k);
    }
  }

  lemma MarkIsWell(s: string, before: string, name: string, rest: string)
    requires FirstMark(s) == At(before, name, rest)
    ensures !Contains(before, OPEN) && name != "" && '}' !in name
  {
    PrefixHasNone(s);
    var after := SplitAt(s, OPEN).value.1;
    IndexOfChar(after, '}');
  }

  lemma {:induction false} CutIsWell(s: string)
    requires Pieces(s).Ok?
    ensures WellCut(Pieces(s).value)
    decreases |s|
  {
    match FirstMark(s)
    case Absent =>
    case Bad(_) =>
    case At(before, name, rest) =>
      MarkIsWell(s, before, name, rest);
      CutIsWell(rest);
      var more := Pieces(rest).value;
      assert ([Literal(before), Name(name)] + more)[2..] == more;
  }

  /** A text has placeholders that can be filled in iff it is made up of well-cut pieces, and
      those are the pieces. */
  lemma CutsExactly(s: string, pieces: seq<Piece>)
    ensures Pieces(s) == Ok(pieces) <==> WellCut(pieces) && Source(pieces) == s
  {
    if Pieces(s) == Ok(pieces) {
      CutIsWell(s);
      PiecesMakeTheText(s);
    }
    if WellCut(pieces) && Source(pieces) == s {
      CutIsTheOnlyOne(pieces);
    }
  }

  /** What stands for one name is put in its place: a secret's value for a name with a colon,
      a variable's for any other; without a value, the text cannot be filled in. */
  lemma OneIsFilled(before: string, name: string, after: string, w: World)
    requires !Contains(before, OPEN) && !Contains(after, OPEN) && name != "" && '}' !in name
    ensures var values := if ':' in name then w.secrets else w.env;
            var r := Filled(Pieces(before + ("${" + name + "}" + after)), w);
            if name in values then r == Ok(before + (values[name] + after))
            else r == Err(if ':' in name then NoSecret(name) else NoVariable(name))
  {
    var pieces := [Literal(before), Name(name)] + [Literal(after)];
    assert pieces[2..] == [Literal(after)];
    Unfold(before, name, [Literal(after)], w);
    UnfoldPlain(after, w);
    CutIsTheOnlyOne(pieces);
    assert Written(name) == "${" + name + "}";
  }

  /* ----- the code: names first, then each one searched for again ----- */

  function Listed(r: Result<seq<Piece>, Fault>): Result<seq<string>, Fault> {
    match r
    case Err(f) => Err(f)
    case Ok(pieces) => Ok(NamesIn(pieces))
  }

  function Filled(r: Result<seq<Piece>, Fault>, w: World): Result<string, Fault> {
    match r
    case Err(f) => Err(f)
    case Ok(pieces) => Substitute(pieces, w)
  }

  function After<T>(first: seq<T>, r: Result<seq<T>, Fault>): Result<seq<T>, Fault> {
    match r
    case Err(f) => Err(f)
    case Ok(rest) => Ok(first + rest)
  }

  lemma AfterAfter<T>(a: seq<T>, b: seq<T>, r: Result<seq<T>, Fault>)
    ensures After(a, After(b, r)) == After(a + b, r)
  {
    if r.Ok? {
      assert a + (b + r.value) == a + b + r.value;
    }
  }

  lemma AfterNothing<T>(r: Result<seq<T>, Fault>)
    ensures After([], r) == r
  {
    if r.Ok? {
      assert [] + r.value == r.value;
    }
  }

  /** What the first placeholder contributes to the names and to the text. */
  lemma MarkContributes(s: string, before: string, name: string, rest: string, w: World)
    requires FirstMark(s) == At(before, name, rest)
    ensures Listed(Pieces(s)) == After([name], Listed(Pieces(rest)))
    ensures Pieces(s).Ok? ==>
              Filled(Pieces(s), w) ==
              if w.Value(name).Err? then Err(w.Value(name).error)
              else After(before, After(w.Value(name).value, Filled(Pieces(rest), w)))
  {
    if Pieces(rest).Ok? {
      Unfold(before, name, Pieces(rest).value, w);
    }
  }

  lemma ListNext(rest: string, names: seq<string>, before: string, name: string, tail: string)
    requires FirstMark(rest) == At(before, name, tail)
    ensures After(names, Listed(Pieces(rest))) == After(names + [name], Listed(Pieces(tail)))
  {
    MarkContributes(rest, before, name, tail, World(map[], map[]));
    AfterAfter(names, [name], Listed(Pieces(tail)));
  }

  lemma MarkFound(rest: string, after: string, start: nat, end: nat)
    requires start == IndexOf(rest, OPEN) < |rest| && after == rest[start + 2..]
    requires 0 < end == IndexOf(after, "}") < |after|
    ensures FirstMark(rest) == At(rest[..start], after[..end], after[end + 1..])
  {
  }

  /** The names in `input`, in order. */
  method ListNames(input: string) returns (r: Result<seq<string>, Fault>)
    ensures r == Listed(Pieces(input))
  {
    var names: seq<string> := [];
    var rest := input;
    AfterNothing(Listed(Pieces(input)));
    while Contains(rest, OPEN)
      invariant Listed(Pieces(input)) == After(names, Listed(Pieces(rest)))
      decreases |rest|
    {
      var start := IndexOf(rest, OPEN);
      var after := rest[start + 2..];
      var end := IndexOf(after, "}");
      if end >= |after| {
        return Err(Unterminated);
      }
      var name := after[..end];
      if name == "" {
        return Err(EmptyName);
      }
      ghost var tail := after[end + 1..];
      MarkFound(rest, after, start, end);
      ListNext(rest, names, rest[..start], name, tail);
      names := names + [name];
      rest := after[end + 1..];
    }
    UnfoldPlain(rest, World(map[], map[]));
    assert names + [] == names;
    return Ok(names);
  }

  /** The names still to be filled in. */
  ghost predicate Remain(rest: string, names: seq<string>) {
    Pieces(rest).Ok? && NamesIn(Pieces(rest).value) == names
  }

  /** Searching again for the next name's placeholder succeeds, and cutting there
      keeps what the single pass will make of the text. */
  lemma Refound(rest: string, names: seq<string>, out: string, w: World) returns (before: string, tail: string)
    requires Remain(rest, names) && names != []
    ensures IndexOf(rest, Written(names[0])) == |before| < |rest|
    ensures |before| + |Written(names[0])| <= |rest|
    ensures rest[..|before|] == before && rest[|before| + |Written(names[0])|..] == tail
    ensures Remain(tail, names[1..])
    ensures After(out, Filled(Pieces(rest), w)) ==
            if w.Value(names[0]).Err? then Err(w.Value(names[0]).error)
            else After(out + before + w.Value(names[0]).value, Filled(Pieces(tail), w))
  {
    NextMark(rest, names);
    before, tail := FirstMark(rest).before, FirstMark(rest).rest;
    OthersRemain(rest, names, before, tail);
    MarkIsThere(rest, before, names[0], tail);
    DropJoined(before, Written(names[0]), tail);
    MarkContributes(rest, before, names[0], tail, w);
    if w.Value(names[0]).Ok? {
      AfterThree(out, before, w.Value(names[0]).value, Filled(Pieces(tail), w));
    }
  }

  /** The next listed name is the first placeholder's. */
  lemma NextMark(rest: string, names: seq<string>)
    requires Remain(rest, names) && names != []
    ensures FirstMark(rest).At? && FirstMark(rest).name == names[0]
  {
    var w := World(map[], map[]);
    if FirstMark(rest).Absent? {
      UnfoldPlain(rest, w);
    }
    var At(before, name, tail) := FirstMark(rest);
    MarkContributes(rest, before, name, tail, w);
  }

  /** And what follows it lists the others. */
  lemma OthersRemain(rest: string, names: seq<string>, before: string, tail: string)
    requires Remain(rest, names) && names != [] && FirstMark(rest) == At(before, names[0], tail)
    ensures Remain(tail, names[1..])
  {
    MarkContributes(rest, before, names[0], tail, World(map[], map[]));
    assert names == [names[0]] + Listed(Pieces(tail)).value;
  }

  /** The names still to be filled in. */
  ghost function NamesLeft(rest: string): Result<seq<string>, Fault> {
    Listed(Pieces(rest))
  }

  /** What the text comes to when `out` is done and `rest` is left to the single pass. */
  ghost function Whole(out: string, rest: string, w: World): Result<string, Fault> {
    After(out, Filled(Pieces(rest), w))
  }

  /** What searching again for each mark, and putting its value there, gives; nothing when
      one is not found. */
  function Searched(marks: seq<string>, values: seq<Result<string, Fault>>, out: string, rest: string)
    : Option<Result<string, Fault>>
    requires |values| == |marks|
    decreases |marks|
  {
    if marks == [] then Some(Ok(out + rest))
    else if marks[0] == "" then None
    else
      match SplitAt(rest, marks[0])
      case None => None
      case Some((before, tail)) =>
        match values[0]
        case Err(fault) => Some(Err(fault))
        case Ok(value) => Searched(marks[1..], values[1..], out + before + value, tail)
  }

  /** Each name as it is written, and what it stands for. */
  function Marks(names: seq<string>): (marks: seq<string>)
    ensures |marks| == |names|
  {
    seq(|names|, i requires 0 <= i < |names| => Written(names[i]))
  }

  function Values(names: seq<string>, w: World): (values: seq<Result<string, Fault>>)
    ensures |values| == |names|
  {
    seq(|names|, i requires 0 <= i < |names| => w.Value(names[i]))
  }

  lemma FillNext(names: seq<string>, out: string, rest: string, w: World) returns (before: string, tail: string)
    requires NamesLeft(rest) == Ok(names) && names != []
    ensures IndexOf(rest, Written(names[0])) == |before| && |before| + |Written(names[0])| <= |rest|
    ensures before == rest[..|before|] && tail == rest[|before| + |Written(names[0])|..]
    ensures NamesLeft(tail) == Ok(names[1..])
    ensures w.Value(names[0]).Err? ==> Whole(out, rest, w) == Err(w.Value(names[0]).error)
    ensures w.Value(names[0]).Ok? ==> Whole(out, rest, w) == Whole(out + before + w.Value(names[0]).value, tail, w)
  {
    before, tail := Refound(rest, names, out, w);
  }

  lemma FillLast(out: string, rest: string, w: World)
    requires NamesLeft(rest) == Ok([])
    ensures Whole(out, rest, w) == Ok(out + rest)
  {
    NoNames(rest, w);
  }

  lemma SearchedNext(marks: seq<string>, values: seq<Result<string, Fault>>, out: string, rest: string,
      before: string, tail: string)
    requires |values| == |marks| > 0 && marks[0] != "" && SplitAt(rest, marks[0]) == Some((before, tail))
    ensures Searched(marks, values, out, rest) ==
            if values[0].Err? then Some(Err(values[0].error))
            else Searched(marks[1..], values[1..], out + before + values[0].value, tail)
  {
  }

  lemma CutThere(rest: string, mark: string, before: string, tail: string)
    requires mark != [] && IndexOf(rest, mark) == |before| && |before| + |mark| <= |rest|
    requires before == rest[..|before|] && tail == rest[|before| + |mark|..]
    ensures SplitAt(rest, mark) == Some((before, tail))
  {
  }

  /** The first mark is found, and what is left lists the other names. */
  lemma FirstFound(names: seq<string>, out: string, rest: string, w: World) returns (before: string, tail: string)
    requires NamesLeft(rest) == Ok(names) && names != []
    ensures Marks(names)[0] != "" && SplitAt(rest, Marks(names)[0]) == Some((before, tail))
    ensures NamesLeft(tail) == Ok(names[1..])
    ensures var value := Values(names, w)[0];
            Whole(out, rest, w) == if value.Err? then Err(value.error) else Whole(out + before + value.value, tail, w)
  {
    before, tail := FillNext(names, out, rest, w);
    CutThere(rest, Written(names[0]), before, tail);
  }

  lemma OtherNames(names: seq<string>, w: World)
    requires names != []
    ensures Marks(names)[1..] == Marks(names[1..]) && Values(names, w)[1..] == Values(names[1..], w)
  {
  }

  /** Every name is found, and searching again gives what the single pass does. */
  lemma {:induction false} SearchedIsWhole(names: seq<string>, out: string, rest: string, w: World)
    requires NamesLeft(rest) == Ok(names)
    ensures Searched(Marks(names), Values(names, w), out, rest) == Some(Whole(out, rest, w))
    decreases |names|
  {
    if names == [] {
      FillLast(out, rest, w);
    } else {
      var before, tail := FirstFound(names, out, rest, w);
      SearchedNext(Marks(names), Values(names, w), out, rest, before, tail);
      OtherNames(names, w);
      if Values(names, w)[0].Ok? {
        SearchedIsWhole(names[1..], out + before + Values(names, w)[0].value, tail, w);
      }
    }
  }

  /** The names are listed first; then each is searched for again, in what is left. */
  method Interpolate(input: string, w: World) returns (r: Result<string, Fault>)
    ensures r == Filled(Pieces(input), w)
  {
    var listed := ListNames(input);
    if listed.Err? {
      return Err(listed.error);
    }
    SearchedIsWhole(listed.value, "", input, w);
    AfterNothing(Filled(Pieces(input), w));
    r := FillIn(Marks(listed.value), Values(listed.value, w), input);
  }

  lemma FoundNext(marks: seq<string>, values: seq<Result<string, Fault>>, out: string, rest: string)
    requires |values| == |marks| > 0 && Searched(marks, values, out, rest).Some?
    ensures marks[0] != "" && SplitAt(rest, marks[0]).Some?
  {
  }

  method FillIn(marks: seq<string>, values: seq<Result<string, Fault>>, input: string)
    returns (r: Result<string, Fault>)
    requires |values| == |marks| && Searched(marks, values, "", input).Some?
    ensures Some(r) == Searched(marks, values, "", input)
  {
    var out, rest, i := "", input, 0;
    assert marks[0..] == marks && values[0..] == values;
    while i < |marks|
      invariant 0 <= i <= |marks|
      invariant Searched(marks[i..], values[i..], out, rest) == Searched(marks, values, "", input)
    {
      assert marks[i..][1..] == marks[i + 1..] && values[i..][1..] == values[i + 1..];
      FoundNext(marks[i..], values[i..], out, rest);
      var (before, tail) := SplitAt(rest, marks[i]).value;
      SearchedNext(marks[i..], values[i..], out, rest, before, tail);
      if values[i].Err? {
        return Err(values[i].error);
      }
      out := out + before + values[i].value;
      rest := tail;
      i := i + 1;
    }
    assert marks[i..] == [];
    return Ok(out + rest);
  }

  lemma AfterThree<T>(a: seq<T>, b: seq<T>, c: seq<T>, r: Result<seq<T>, Fault>)
    ensures After(a, After(b, After(c, r))) == After(a + b + c, r)
  {
    AfterAfter(a, b, After(c, r));
    AfterAfter(a + b, c, r);
  }

  lemma NoNames(rest: string, w: World)
    requires Pieces(rest).Ok? && NamesIn(Pieces(rest).value) == []
    ensures Substitute(Pieces(rest).value, w) == Ok(rest)
  {
    UnfoldPlain(rest, w);
    var m := FirstMark(rest);
    if m.At? {
      MarkContributes(rest, m.before, m.name, m.rest, w);
    }
  }

  /* ----- whole documents ----- */

  /** A YAML value. Map keys are not interpolated, so only the values matter. */
  datatype Yaml =
    | Text(s: string)
    | Sequence(items: seq<Yaml>)
    | Mapping(keys: seq<string>, values: seq<Yaml>)
    | Tagged(tag: string, value: Yaml)
    | Other(scalar: string)

  function Interpolated(v: Yaml, w: World): Result<Yaml, Fault>
    decreases v, 1
  {
    match v
    case Text(s) => (match Filled(Pieces(s), w) case Err(f) => Err(f) case Ok(t) => Ok(Text(t)))
    case Sequence(items) =>
      (match InterpolatedAll(items, w) case Err(f) => Err(f) case Ok(done) => Ok(Sequence(done)))
    case Mapping(keys, values) =>
      (match InterpolatedAll(values, w) case Err(f) => Err(f) case Ok(done) => Ok(Mapping(keys, done)))
    case Tagged(tag, value) =>
      (match Interpolated(value, w) case Err(f) => Err(f) case Ok(done) => Ok(Tagged(tag, done)))
    case Other(_) => Ok(v)
  }

  function InterpolatedAll(items: seq<Yaml>, w: World): Result<seq<Yaml>, Fault>
    decreases items, 0
  {
    if items == [] then Ok([])
    else
      match Interpolated(items[0], w)
      case Err(f) => Err(f)
      case Ok(first) => After([first], InterpolatedAll(items[1..], w))
  }

  /** The names not in `known` yet, each once, joined to it in order. */
  function AddSecrets(known: seq<string>, names: seq<string>): seq<string>
    decreases |names|
  {
    if names == [] then known
    else AddSecrets(if IsSecret(names[0]) && names[0] !in known then known + [names[0]] else known, names[1..])
  }

  /** The secret names of a document, each once, in order. */
  function SecretRefs(v: Yaml, known: seq<string>): Result<seq<string>, Fault>
    decreases v, 1
  {
    match v
    case Text(s) =>
      (match Pieces(s) case Err(f) => Err(f) case Ok(pieces) => Ok(AddSecrets(known, NamesIn(pieces))))
    case Sequence(items) => SecretRefsAll(items, known)
    case Mapping(_, values) => SecretRefsAll(values, known)
    case Tagged(_, value) => SecretRefs(value, known)
    case Other(_) => Ok(known)
  }

  function SecretRefsAll(items: seq<Yaml>, known: seq<string>): Result<seq<string>, Fault>
    decreases items, 0
  {
    if items == [] then Ok(known)
    else
      match SecretRefs(items[0], known)
      case Err(f) => Err(f)
      case Ok(more) => SecretRefsAll(items[1..], more)
  }

  predicate NoTwice(names: seq<string>) {
    forall i, j | 0 <= i < j < |names| :: names[i] != names[j]
  }

  /** What one more piece of a document does to the list: nothing is lost or
      doubled, and a world has all the names iff it had the old ones and has the new. */
  ghost predicate Extends(known: seq<string>, more: seq<string>) {
    && (NoTwice(known) ==> NoTwice(more))
    && (forall n :: n in known ==> n in more)
  }

  ghost predicate Has(w: World, names: seq<string>) {
    forall n :: n in names ==> n in w.secrets
  }

  /** Every variable a document names is set. */
  ghost predicate EnvSet(v: Yaml, env: map<string, string>)
    decreases v, 1
  {
    match v
    case Text(s) => Pieces(s).Ok? ==> forall n :: n in NamesIn(Pieces(s).value) && !IsSecret(n) ==> n in env
    case Sequence(items) => EnvSetAll(items, env)
    case Mapping(_, values) => EnvSetAll(values, env)
    case Tagged(_, value) => EnvSet(value, env)
    case Other(_) => true
  }

  ghost predicate EnvSetAll(items: seq<Yaml>, env: map<string, string>)
    decreases items, 0
  {
    items == [] || (EnvSet(items[0], env) && EnvSetAll(items[1..], env))
  }

  lemma {:induction false} SubstituteNeeds(pieces: seq<Piece>, w: World)
    ensures Substitute(pieces, w).Ok? <==> forall n :: n in NamesIn(pieces) ==> w.Value(n).Ok?
  {
    if pieces != [] {
      SubstituteNeeds(pieces[1..], w);
      assert pieces[0].Name? ==> pieces[0].name in NamesIn(pieces);
      assert forall n :: n in NamesIn(pieces[1..]) ==> n in NamesIn(pieces);
    }
  }

  lemma {:induction false} AddSecretsAdds(known: seq<string>, names: seq<string>)
    ensures Extends(known, AddSecrets(known, names))
    ensures forall n :: n in AddSecrets(known, names) <==> n in known || (n in names && IsSecret(n))
    decreases |names|
  {
    if names != [] {
      var next := if IsSecret(names[0]) && names[0] !in known then known + [names[0]] else known;
      AddSecretsAdds(next, names[1..]);
      assert names == [names[0]] + names[1..];
    }
  }

  lemma TextNeeds(pieces: seq<Piece>, known: seq<string>, w: World)
    ensures var more := AddSecrets(known, NamesIn(pieces));
            && Extends(known, more)
            && (Has(w, more) && (forall n :: n in NamesIn(pieces) && !IsSecret(n) ==> n in w.env) <==>
                Has(w, known) && Substitute(pieces, w).Ok?)
  {
    var more := AddSecrets(known, NamesIn(pieces));
    AddSecretsAdds(known, NamesIn(pieces));
    SubstituteNeeds(pieces, w);
    if Has(w, known) && Substitute(pieces, w).Ok? {
      forall n | n in NamesIn(pieces) && !IsSecret(n) ensures n in w.env {
        assert w.Value(n).Ok?;
      }
      forall n | n in more ensures n in w.secrets {
        assert n in NamesIn(pieces) ==> w.Value(n).Ok?;
      }
    }
    if Has(w, more) && forall n :: n in NamesIn(pieces) && !IsSecret(n) ==> n in w.env {
      forall n | n in NamesIn(pieces) ensures w.Value(n).Ok? {
        assert IsSecret(n) ==> n in more;
      }
    }
  }

  /** `secret_refs` lists, each once, exactly the secrets interpolation looks up:
      it succeeds in a world iff the listed secrets and the variables are there. */
  lemma {:induction false} SecretsAreThoseLookedUp(v: Yaml, known: seq<string>, w: World)
    ensures SecretRefs(v, known).Ok? ==> Extends(known, SecretRefs(v, known).value)
    ensures SecretRefs(v, known).Err? ==> Interpolated(v, w).Err?
    ensures SecretRefs(v, known).Ok? ==>
              (Has(w, SecretRefs(v, known).value) && EnvSet(v, w.env) <==>
               Has(w, known) && Interpolated(v, w).Ok?)
    decreases v, 1
  {
    match v
    case Text(s) =>
      if Pieces(s).Ok? {
        TextNeeds(Pieces(s).value, known, w);
      }
    case Sequence(items) => AllSecretsAreThoseLookedUp(items, known, w);
    case Mapping(_, values) => AllSecretsAreThoseLookedUp(values, known, w);
    case Tagged(_, value) => SecretsAreThoseLookedUp(value, known, w);
    case Other(_) =>
  }

  lemma {:induction false} AllSecretsAreThoseLookedUp(items: seq<Yaml>, known: seq<string>, w: World)
    ensures SecretRefsAll(items, known).Ok? ==> Extends(known, SecretRefsAll(items, known).value)
    ensures SecretRefsAll(items, known).Err? ==> InterpolatedAll(items, w).Err?
    ensures SecretRefsAll(items, known).Ok? ==>
              (Has(w, SecretRefsAll(items, known).value) && EnvSetAll(items, w.env) <==>
               Has(w, known) && InterpolatedAll(items, w).Ok?)
    decreases items, 0
  {
    if items != [] {
      SecretsAreThoseLookedUp(items[0], known, w);
      match SecretRefs(items[0], known)
      case Err(_) =>
      case Ok(more) => AllSecretsAreThoseLookedUp(items[1..], more, w);
    }
  }

  /* ----- a whole document, place by place ----- */

  function Children(v: Yaml): seq<Yaml> {
    match v
    case Text(_) => []
    case Sequence(items) => items
    case Mapping(_, values) => values
    case Tagged(_, value) => [value]
    case Other(_) => []
  }

  /** What stands at a place of a document: the place is which child to go to, again and again. */
  function ValueAt(v: Yaml, place: seq<nat>): Option<Yaml> {
    if place == [] then Some(v)
    else if place[0] < |Children(v)| then ValueAt(Children(v)[place[0]], place[1..])
    else None
  }

  /** One value and what became of it: a text is filled in, and nothing else changes but
      what is inside. */
  ghost predicate Becomes(v: Yaml, r: Yaml, w: World) {
    match v
    case Text(s) => r.Text? && Filled(Pieces(s), w) == Ok(r.s)
    case Sequence(items) => r.Sequence? && |r.items| == |items|
    case Mapping(keys, values) => r.Mapping? && r.keys == keys && |r.values| == |values|
    case Tagged(tag, _) => r.Tagged? && r.tag == tag
    case Other(_) => r == v
  }

  /** Every place of the document is one of the result, and the other way round. */
  ghost predicate BecomesAt(v: Yaml, r: Yaml, place: seq<nat>, w: World) {
    var before, after := ValueAt(v, place), ValueAt(r, place);
    (before.Some? <==> after.Some?) && (before.Some? && after.Some? ==> Becomes(before.value, after.value, w))
  }

  lemma {:induction false} AllInterpolated(items: seq<Yaml>, w: World)
    ensures var r := InterpolatedAll(items, w);
            && (r.Ok? ==> (|r.value| == |items|
                           && forall i | 0 <= i < |items| :: Interpolated(items[i], w) == Ok(r.value[i])))
            && (r.Err? ==> exists i | 0 <= i < |items| :: Interpolated(items[i], w) == Err(r.error))
  {
    if items != [] {
      AllInterpolated(items[1..], w);
      if InterpolatedAll(items[1..], w).Err? {
        var i :| 0 <= i < |items[1..]| && Interpolated(items[1..][i], w) == Err(InterpolatedAll(items[1..], w).error);
        assert items[1..][i] == items[i + 1];
      }
    }
  }

  lemma TopBecomes(v: Yaml, w: World)
    requires Interpolated(v, w).Ok?
    ensures var r := Interpolated(v, w).value;
            && Becomes(v, r, w) && |Children(r)| == |Children(v)|
            && forall i | 0 <= i < |Children(v)| :: Interpolated(Children(v)[i], w) == Ok(Children(r)[i])
  {
    match v
    case Text(_) =>
    case Sequence(items) => AllInterpolated(items, w);
    case Mapping(_, values) => AllInterpolated(values, w);
    case Tagged(_, _) =>
    case Other(_) =>
  }

  /** When a document can be filled in, the result has its shape: at every place the same
      keys, tags and lengths, the same values that are no text, and each text with what its
      names stand for. */
  lemma {:induction false} EveryTextIsFilled(v: Yaml, w: World, place: seq<nat>)
    requires Interpolated(v, w).Ok?
    ensures BecomesAt(v, Interpolated(v, w).value, place, w)
    decreases |place|
  {
    TopBecomes(v, w);
    if place != [] && place[0] < |Children(v)| {
      EveryTextIsFilled(Children(v)[place[0]], w, place[1..]);
    }
  }

  lemma ChildAt(v: Yaml, i: nat, place: seq<nat>)
    requires i < |Children(v)|
    ensures ValueAt(v, [i] + place) == ValueAt(Children(v)[i], place)
  {
    assert ([i] + place)[1..] == place;
  }

  lemma {:induction false} FaultIsSomewhere(v: Yaml, w: World) returns (place: seq<nat>)
    requires Interpolated(v, w).Err?
    ensures ValueAt(v, place).Some? && ValueAt(v, place).value.Text?
    ensures Filled(Pieces(ValueAt(v, place).value.s), w) == Err(Interpolated(v, w).error)
    decreases v
  {
    match v
    case Text(_) => place := [];
    case Sequence(items) =>
      AllInterpolated(items, w);
      var i: nat :| i < |items| && Interpolated(items[i], w) == Err(Interpolated(v, w).error);
      place := FaultIsSomewhere(items[i], w);
      ChildAt(v, i, place);
      place := [i] + place;
    case Mapping(_, values) =>
      AllInterpolated(values, w);
      var i: nat :| i < |values| && Interpolated(values[i], w) == Err(Interpolated(v, w).error);
      place := FaultIsSomewhere(values[i], w);
      ChildAt(v, i, place);
      place := [i] + place;
    case Tagged(_, value) =>
      place := FaultIsSomewhere(value, w);
      ChildAt(v, 0, place);
      place := [0] + place;
  }

  ghost predicate FillableAt(v: Yaml, place: seq<nat>, w: World) {
    var at := ValueAt(v, place);
    at.Some? && at.value.Text? ==> Filled(Pieces(at.value.s), w).Ok?
  }

  /** A document can be filled in iff each of its texts can. */
  lemma FilledIffEachIs(v: Yaml, w: World)
    ensures Interpolated(v, w).Ok? <==> forall place :: FillableAt(v, place, w)
  {
    if Interpolated(v, w).Ok? {
      forall place ensures FillableAt(v, place, w) {
        EveryTextIsFilled(v, w, place);
      }
    } else {
      var place := FaultIsSomewhere(v, w);
      assert !FillableAt(v, place, w);
    }
  }
}
