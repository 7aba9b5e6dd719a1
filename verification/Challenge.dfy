/**
 The authentication challenge of a container registry: a scheme and key="value" parameters, the quoted-string
 part of section 2.1 of RFC 7235.
 */
module Challenge {
  import opened Basics
  import opened Strings

  datatype Error = NoChallenge | InvalidChallenge | InvalidParameters

  datatype Result<T> = Ok(value: T) | Err(error: Error)

  type Params = map<string, string>

  /** One parameter from the front: its key and value, and what follows. */
  function TakeParam(input: string): Result<(string, string, string)> {
    var raw := TrimSpace(input);
    var (key, rest, found) := Cut(raw, '=');
    if !found then Err(InvalidParameters) else TakeQuoted(TrimSpace(key), TrimSpace(rest))
  }

  function TakeQuoted(name: string, quoted: string): Result<(string, string, string)> {
    if name == "" || quoted == "" || quoted[0] != '"' then Err(InvalidParameters)
    else
      var inner := quoted[1..];
      var end := IndexOf(inner, '"');
      if end == |inner| then Err(InvalidParameters)
      else Ok((Lower(name), inner[..end], TrimSpace(inner[end + 1..])))
  }

  lemma TakingShortens(input: string)
    ensures TakeParam(input).Ok? ==> |TakeParam(input).value.2| < |input|
  {
    var raw := TrimSpace(input);
    assert |Cut(raw, '=').1| <= |raw|;
  }

  lemma Taken(input: string)
    ensures TakeParam(input)
            == var (key, rest, found) := Cut(TrimSpace(input), '=');
               if !found then Err(InvalidParameters) else TakeQuoted(TrimSpace(key), TrimSpace(rest))
  {
  }

  /** What the parameters mean: each key in lower case with its last value; a comma may end the list. */
  function ParseParams(raw: string, params: Params): Result<Params>
    decreases |raw|
  {
    if raw == "" then Ok(params)
    else
      TakingShortens(raw);
      match TakeParam(raw)
      case Err(error) => Err(error)
      case Ok((key, value, rest)) =>
        var more := params[key := value];
        if rest == "" then Ok(more)
        else if rest[0] != ',' then Err(InvalidParameters)
        else ParseParams(rest[1..], more)
  }

  function Parse(input: string): Result<(string, Params)> {
    var header := TrimSpace(input);
    if header == "" then Err(NoChallenge)
    else
      var (scheme, raw, found) := Cut(header, ' ');
      if !found || TrimSpace(raw) == "" then Err(InvalidChallenge)
      else
        match ParseParams(raw, map[])
        case Ok(params) => Ok((scheme, params))
        case Err(error) => Err(error)
  }

  lemma ParseStep(raw: string, params: Params)
    ensures raw == "" ==> ParseParams(raw, params) == Ok(params)
    ensures raw != "" ==>
              ParseParams(raw, params)
              == match TakeParam(raw)
                 case Err(error) => Err(error)
                 case Ok((key, value, rest)) =>
                   if rest == "" then Ok(params[key := value])
                   else if rest[0] != ',' then Err(InvalidParameters)
                   else ParseParams(rest[1..], params[key := value])
  {
  }

  method NextParam(input: string) returns (result: Result<(string, string, string)>)
    ensures result == TakeParam(input)
  {
    hide TrimSpace, Cut, IndexOf, Lower;
    var raw := TrimSpace(input);
    var (key, rest, ok) := Cut(raw, '=');
    if !ok {
      return Err(InvalidParameters);
    }
    key := TrimSpace(key);
    rest := TrimSpace(rest);
    if key == "" || rest == "" || rest[0] != '"' {
      return Err(InvalidParameters);
    }
    rest := rest[1..];
    var end := IndexOf(rest, '"');
    if end == |rest| {
      return Err(InvalidParameters);
    }
    return Ok((Lower(key), rest[..end], TrimSpace(rest[end + 1..])));
  }

  method ParseChallenge(input: string) returns (result: Result<(string, Params)>)
    ensures result == Parse(input)
  {
    hide TakeParam, ParseParams, TrimSpace, Cut;
    var header := TrimSpace(input);
    if header == "" {
      return Err(NoChallenge);
    }
    var (scheme, raw, found) := Cut(header, ' ');
    if !found || TrimSpace(raw) == "" {
      return Err(InvalidChallenge);
    }
    var params: Params := map[];
    ghost var start := raw;
    while |raw| > 0
      invariant ParseParams(raw, params) == ParseParams(start, map[])
      decreases |raw|
    {
      TakingShortens(raw);
      ParseStep(raw, params);
      var taken := NextParam(raw);
      if taken.Err? {
        return Err(taken.error);
      }
      params := params[taken.value.0 := taken.value.1];
      raw := taken.value.2;
      if raw == "" {
        return Ok((scheme, params));
      }
      if raw[0] != ',' {
        return Err(InvalidParameters);
      }
      raw := raw[1..];
    }
    ParseStep(raw, params);
    return Ok((scheme, params));
  }

  // ----- the grammar -----

  datatype Param = Param(key: string, value: string) {
    /** A key that is its own trimmed text and holds no `=`, and a value without quotes. */
    predicate Printable() {
      key != "" && Visible(key) && '=' !in key && '"' !in value
    }
  }

  /** One parameter as a header may spell it: space around the key, before the opening quote and behind the
      closing one. */
  datatype Piece = Piece(before: string, param: Param, left: string, right: string, after: string) {
    predicate Spelled() {
      param.Printable() && Blank(before) && Blank(left) && Blank(right) && Blank(after)
    }

    function Text(rest: string): string {
      before + (param.key + (left + (['='] + (right + Quoted(rest)))))
    }

    function Quoted(rest: string): string { ['"'] + (param.value + (['"'] + (after + rest))) }
  }

  /** The parameters, separated by commas; one more comma may end the list. */
  function Spell(pieces: seq<Piece>, comma: bool): string
    requires pieces != []
  {
    pieces[0].Text(if |pieces| > 1 then [','] + Spell(pieces[1..], comma) else if comma then "," else "")
  }

  function ParamsOf(pieces: seq<Piece>): seq<Param> {
    seq(|pieces|, i requires 0 <= i < |pieces| => pieces[i].param)
  }

  ghost predicate ListSpelled(pieces: seq<Piece>, comma: bool) {
    && pieces != [] && (forall p :: p in pieces ==> p.Spelled())
    && (comma || pieces[|pieces| - 1].after == "")
  }

  /** A header: a scheme that starts visibly and holds no blank, a blank, and the list, within space. */
  datatype Header = Header(before: string, scheme: string, pieces: seq<Piece>, comma: bool, after: string) {
    ghost predicate Spelled() {
      && scheme != "" && !Space(scheme[0]) && ' ' !in scheme
      && ListSpelled(pieces, comma) && Blank(before) && Blank(after)
    }

    function Text(): string
      requires pieces != []
    {
      before + (scheme + ([' '] + Spell(pieces, comma)) + after)
    }
  }

  /** The parameters as a map: keys in lower case, the last of several winning. */
  function ToMap(params: seq<Param>, start: Params): Params {
    if params == [] then start else ToMap(params[1..], start[Lower(params[0].key) := params[0].value])
  }

  // ----- what is spelled is parsed -----

  lemma {:induction false} SpelledEnds(pieces: seq<Piece>, comma: bool)
    requires ListSpelled(pieces, comma)
    ensures var s := Spell(pieces, comma); s != "" && !Space(s[|s| - 1])
    decreases |pieces|
  {
    hide Piece.Text, Piece.Spelled, Space;
    var p := pieces[0];
    assert p in pieces;
    CommaIsVisible();
    if |pieces| > 1 {
      assert forall q :: q in pieces[1..] ==> q in pieces;
      assert pieces[1..][|pieces| - 2] == pieces[|pieces| - 1];
      SpelledEnds(pieces[1..], comma);
      TextEnds(p, [','] + Spell(pieces[1..], comma));
    } else {
      TextEnds(p, if comma then "," else "");
    }
  }

  /** A parameter starts where its key does and ends as what follows it. */
  lemma TextEnds(p: Piece, rest: string)
    requires p.Spelled() && if rest == "" then p.after == "" else !Space(rest[|rest| - 1])
    ensures Visible(p.Quoted(rest)) && p.Text(rest) != "" && !Space(p.Text(rest)[|p.Text(rest)| - 1])
    ensures Visible(p.param.key + (p.left + (['='] + (p.right + p.Quoted(rest)))))
  {
    hide Blank;
    var quoted := p.Quoted(rest);
    var inner := p.param.value + (['"'] + (p.after + rest));
    if rest == "" { assert inner == p.param.value + ['"']; }
    assert inner[|inner| - 1] == if rest == "" then '"' else rest[|rest| - 1];
    assert quoted[|quoted| - 1] == inner[|inner| - 1];
    var key := p.param.key;
    var text := key + (p.left + (['='] + (p.right + quoted)));
    assert text[0] == key[0] && text[|text| - 1] == quoted[|quoted| - 1];
    assert p.Text(rest) == p.before + text;
  }

  /** The parameter at the front of a list is taken as it is spelled, and the rest is left. */
  lemma TakesPiece(p: Piece, rest: string)
    requires p.Spelled() && (if rest == "" then p.after == "" else rest[0] == ',' && !Space(rest[|rest| - 1]))
    ensures TakeParam(p.Text(rest)) == Ok((Lower(p.param.key), p.param.value, rest))
  {
    hide *;
    TextEnds(p, rest);
    PieceParts(p, rest);
    var key, text := p.param.key, p.param.key + (p.left + (['='] + (p.right + p.Quoted(rest))));
    TrimmedText(p.before, text);
    Regroup(key, p.left, ['='] + (p.right + p.Quoted(rest)));
    CutOfConcat(key + p.left, '=', p.right + p.Quoted(rest));
    TrimsTo("", key, p.left);
    assert "" + (key + p.left) == key + p.left;
    TrimmedText(p.right, p.Quoted(rest));
    TakesQuoted(key, p.param.value, p.after + rest);
    TrimmedText(p.after, rest);
    Taken(p.Text(rest));
  }

  lemma PieceParts(p: Piece, rest: string)
    requires p.Spelled() && (if rest == "" then p.after == "" else rest[0] == ',' && !Space(rest[|rest| - 1]))
    ensures p.param.key != "" && Visible(p.param.key) && '"' !in p.param.value && '=' !in p.param.key + p.left
    ensures Blank(p.before) && Blank(p.left) && Blank(p.right) && Blank(p.after) && Blank("") && Visible(rest)
    ensures p.Text(rest) == p.before + (p.param.key + (p.left + (['='] + (p.right + p.Quoted(rest)))))
    ensures p.Quoted(rest) == ['"'] + (p.param.value + (['"'] + (p.after + rest)))
  {
  }

  lemma TakesQuoted(key: string, value: string, rest: string)
    requires key != "" && '"' !in value
    ensures TakeQuoted(key, ['"'] + (value + (['"'] + rest))) == Ok((Lower(key), value, TrimSpace(rest)))
  {
    hide TrimSpace, IndexOf, Lower;
    var inner := value + (['"'] + rest);
    IndexOfIs(value, '"', rest);
    assert (['"'] + inner)[1..] == inner;
    assert inner[..|value|] == value && inner[|value| + 1..] == rest;
  }

  lemma {:induction false} ParsesList(pieces: seq<Piece>, comma: bool, start: Params)
    requires ListSpelled(pieces, comma)
    ensures ParseParams(Spell(pieces, comma), start) == Ok(ToMap(ParamsOf(pieces), start))
    decreases |pieces|
  {
    hide TakeParam, ParseParams, Space, Lower, Piece.Text;
    var p := pieces[0];
    assert p in pieces;
    var more := start[Lower(p.param.key) := p.param.value];
    var rest := if |pieces| > 1 then [','] + Spell(pieces[1..], comma) else if comma then "," else "";
    assert ParamsOf(pieces)[1..] == ParamsOf(pieces[1..]);
    SpelledEnds(pieces, comma);
    if |pieces| > 1 {
      assert forall q :: q in pieces[1..] ==> q in pieces;
      assert pieces[1..][|pieces| - 2] == pieces[|pieces| - 1];
      SpelledEnds(pieces[1..], comma);
      ParsesList(pieces[1..], comma, more);
      assert rest[1..] == Spell(pieces[1..], comma);
    } else {
      assert ParamsOf(pieces[1..]) == [];
      CommaIsVisible();
      ParseStep("", more);
    }
    TakesPiece(p, rest);
    ParseStep(p.Text(rest), start);
  }

  lemma CommaIsVisible()
    ensures !Space(',') && ","[1..] == ""
  {
  }

  /** A header in the grammar is parsed to its scheme and its parameters. */
  lemma ParsesSpelled(h: Header)
    requires h.Spelled()
    ensures Parse(h.Text()) == Ok((h.scheme, ToMap(ParamsOf(h.pieces), map[])))
  {
    hide ParseParams, ToMap, Spell, TrimSpace, Piece.Spelled, Cut;
    var list := Spell(h.pieces, h.comma);
    SpelledEnds(h.pieces, h.comma);
    var text := h.scheme + ([' '] + list);
    assert text[0] == h.scheme[0] && text[|text| - 1] == list[|list| - 1];
    TrimsTo(h.before, text, h.after);
    CutOfConcat(h.scheme, ' ', list);
    var before, after := TrimParts(list);
    assert TrimSpace(list) != "";
    ParsesList(h.pieces, h.comma, map[]);
  }

  // ----- what is parsed is spelled -----

  lemma QuotedOf(name: string, quoted: string) returns (value: string, after: string, rest: string)
    requires TakeQuoted(name, quoted).Ok? && Visible(quoted)
    ensures name != "" && quoted == ['"'] + (value + (['"'] + (after + rest))) && '"' !in value
    ensures TakeQuoted(name, quoted) == Ok((Lower(name), value, rest))
    ensures Blank(after) && Visible(rest) && (rest == "" ==> after == "")
  {
    hide *;
    var behind;
    value, behind := UpToQuote(name, quoted);
    rest := TrimSpace(behind);
    var g;
    after, g := TrimParts(behind);
    BehindOf(quoted, value, after, rest, g);
    NothingBehind(quoted, ['"'] + (value + (['"'] + (after + rest))), g);
    if rest == "" { NothingBehind(quoted, ['"'] + (value + ['"']), after); }
  }

  lemma UpToQuote(name: string, quoted: string) returns (value: string, behind: string)
    requires TakeQuoted(name, quoted).Ok? && Visible(quoted)
    ensures name != "" && quoted == ['"'] + (value + (['"'] + behind)) && '"' !in value
    ensures TakeQuoted(name, quoted) == Ok((Lower(name), value, TrimSpace(behind)))
    ensures quoted != "" && !Space(quoted[|quoted| - 1])
  {
    hide TrimSpace, IndexOf, Lower, Space;
    var inner := quoted[1..];
    var end := IndexOf(inner, '"');
    value, behind := inner[..end], inner[end + 1..];
    assert quoted == ['"'] + inner && inner == value + (['"'] + behind);
  }

  lemma BehindOf(quoted: string, value: string, after: string, rest: string, g: string)
    requires quoted == ['"'] + (value + (['"'] + (after + (rest + g))))
    ensures quoted == (['"'] + (value + (['"'] + (after + rest)))) + g
    ensures g == "" && rest == "" ==> quoted == (['"'] + (value + ['"'])) + after
    ensures g == "" ==> quoted == ['"'] + (value + (['"'] + (after + rest)))
  {
  }

  /** Where a parameter is taken, it stands there as spelled. */
  lemma PieceOf(raw: string) returns (p: Piece, rest: string)
    requires raw != "" && !Space(raw[|raw| - 1]) && TakeParam(raw).Ok?
    ensures p.Spelled() && raw == p.Text(rest) && TakeParam(raw) == Ok((Lower(p.param.key), p.param.value, rest))
    ensures Visible(rest) && (rest == "" ==> p.after == "")
  {
    hide TrimSpace, Cut, Lower, Space, TakeQuoted;
    var t := TrimSpace(raw);
    var u, v := TrimParts(raw);
    assert raw == (u + t) + v;
    NothingBehind(raw, u + t, v);
    var (k, r, found) := Cut(t, '=');
    CutRejoins(t, '=');
    var a, b := TrimParts(k);
    var c, d := TrimParts(r);
    var name, quoted := TrimSpace(k), TrimSpace(r);
    var value, after;
    value, after, rest := QuotedOf(name, quoted);
    TextOf(raw, u, a, name, b, c, quoted, d);
    NothingBehind(raw, u + (a + (name + (b + (['='] + (c + quoted))))), d);
    p := Piece(u + a, Param(name, value), b, c, after);
    BlankConcat(u, a);
    assert '=' !in name;
  }

  lemma TextOf(raw: string, u: string, a: string, name: string, b: string, c: string, quoted: string, d: string)
    requires raw == u + ((a + (name + b)) + (['='] + (c + (quoted + d))))
    ensures raw == (u + (a + (name + (b + (['='] + (c + quoted)))))) + d
    ensures d == "" ==> raw == (u + a) + (name + (b + (['='] + (c + quoted))))
  {
  }

  lemma NothingBehind(raw: string, front: string, behind: string)
    requires raw != "" && !Space(raw[|raw| - 1]) && Blank(behind)
    ensures raw == front + behind ==> behind == ""
  {
    if behind != "" { assert (front + behind)[|front + behind| - 1] == behind[|behind| - 1]; }
  }

  lemma BlankConcat(a: string, b: string)
    requires Blank(a) && Blank(b)
    ensures Blank(a + b)
  {
  }

  lemma {:induction false} ListOf(raw: string, start: Params) returns (pieces: seq<Piece>, comma: bool)
    requires raw != "" && !Space(raw[|raw| - 1]) && ParseParams(raw, start).Ok?
    ensures ListSpelled(pieces, comma) && raw == Spell(pieces, comma)
    decreases |raw|
  {
    hide TakeParam, ParseParams, Space, Piece.Text, Piece.Spelled;
    ParseStep(raw, start);
    var p, rest := PieceOf(raw);
    if rest == "" || rest == "," {
      pieces, comma := [p], rest == ",";
    } else {
      TakingShortens(raw);
      var more;
      more, comma := ListOf(rest[1..], start[Lower(p.param.key) := p.param.value]);
      pieces := [p] + more;
      assert pieces[1..] == more;
      assert rest == [','] + rest[1..];
    }
  }

  /** Exactly the headers of the grammar are accepted, each with its scheme and its parameters. */
  lemma AcceptedExactlyWhere(input: string, scheme: string, params: Params)
    ensures Parse(input) == Ok((scheme, params))
            <==> exists h: Header ::
                   h.Spelled() && input == h.Text() && scheme == h.scheme && params == ToMap(ParamsOf(h.pieces), map[])
  {
    hide Parse, Piece.Spelled, Spell, ToMap;
    if Parse(input) == Ok((scheme, params)) {
      var h := HeaderOf(input);
      ParsesSpelled(h);
    }
    if h: Header :|
      h.Spelled() && input == h.Text() && scheme == h.scheme && params == ToMap(ParamsOf(h.pieces), map[])
    {
      ParsesSpelled(h);
    }
  }

  lemma HeaderOf(input: string) returns (h: Header)
    requires Parse(input).Ok?
    ensures h.Spelled() && input == h.Text()
  {
    hide ParseParams, TrimSpace, Cut, Spell, ListSpelled, Space;
    var before, after := TrimParts(input);
    var header := TrimSpace(input);
    var (scheme, raw, found) := Cut(header, ' ');
    CutRejoins(header, ' ');
    BlankIsSpace();
    assert raw != "" by { TrimmedText("", ""); assert "" + "" == ""; }
    assert raw[|raw| - 1] == header[|header| - 1];
    var pieces, comma := ListOf(raw, map[]);
    h := Header(before, scheme, pieces, comma, after);
    assert scheme[0] == header[0];
  }

  lemma BlankIsSpace()
    ensures Space(' ')
  {
  }

  // ----- printing -----

  /** The plain spelling, with the same space behind every comma. */
  function PlainPieces(params: seq<Param>, gap: string, first: bool): (pieces: seq<Piece>)
    ensures |pieces| == |params| && forall i :: 0 <= i < |params| ==> pieces[i].param == params[i]
  {
    seq(|params|, i requires 0 <= i < |params| => Piece(if first && i == 0 then "" else gap, params[i], "", "", ""))
  }

  function PrintChallenge(scheme: string, params: seq<Param>, gap: string): string
    requires params != []
  {
    Header("", scheme, PlainPieces(params, gap, true), false, "").Text()
  }

  /** Printing a challenge and parsing it gives the scheme and the parameters back. */
  lemma ChallengeRoundTrip(scheme: string, params: seq<Param>, gap: string)
    requires scheme != "" && !Space(scheme[0]) && ' ' !in scheme && Blank(gap)
    requires params != [] && forall p :: p in params ==> p.Printable()
    ensures Parse(PrintChallenge(scheme, params, gap)) == Ok((scheme, ToMap(params, map[])))
  {
    hide Parse, Header.Text, Spell, ToMap, Space;
    var pieces := PlainPieces(params, gap, true);
    assert forall i :: 0 <= i < |params| ==> params[i] in params && pieces[i].Spelled();
    ParsesSpelled(Header("", scheme, pieces, false, ""));
    assert ParamsOf(pieces) == params;
  }

  /** One comma behind the last parameter changes nothing. */
  lemma TrailingCommaIsAccepted(scheme: string, params: seq<Param>, gap: string)
    requires scheme != "" && !Space(scheme[0]) && ' ' !in scheme && Blank(gap)
    requires params != [] && forall p :: p in params ==> p.Printable()
    ensures Parse(PrintChallenge(scheme, params, gap) + ",") == Ok((scheme, ToMap(params, map[])))
  {
    hide Parse, Spell, ToMap, Space;
    var pieces := PlainPieces(params, gap, true);
    assert forall i :: 0 <= i < |params| ==> params[i] in params && pieces[i].Spelled();
    ParsesSpelled(Header("", scheme, pieces, true, ""));
    assert ParamsOf(pieces) == params;
    CommaBehind(pieces);
    var list := Spell(pieces, false);
    assert PrintChallenge(scheme, params, gap) == scheme + ([' '] + list);
    assert Header("", scheme, pieces, true, "").Text() == scheme + ([' '] + (list + ","));
    assert scheme + ([' '] + (list + ",")) == (scheme + ([' '] + list)) + ",";
  }

  lemma {:induction false} CommaBehind(pieces: seq<Piece>)
    requires pieces != []
    ensures Spell(pieces, true) == Spell(pieces, false) + ","
    decreases |pieces|
  {
    hide Piece.Text;
    if |pieces| > 1 {
      CommaBehind(pieces[1..]);
      TextMore(pieces[0], [','] + Spell(pieces[1..], false));
      assert [','] + (Spell(pieces[1..], false) + ",") == ([','] + Spell(pieces[1..], false)) + ",";
    } else {
      TextMore(pieces[0], "");
      assert "" + "," == ",";
    }
  }

  lemma TextMore(p: Piece, rest: string)
    ensures p.Text(rest + ",") == p.Text(rest) + ","
  {
    assert p.after + (rest + ",") == (p.after + rest) + ",";
    assert p.Quoted(rest + ",") == p.Quoted(rest) + ",";
  }

  /** A token in place of a quoted string is never a value. */
  lemma TokenIsRejected(scheme: string, key: string, token: string)
    requires scheme != "" && !Space(scheme[0]) && ' ' !in scheme
    requires Param(key, "").Printable() && token != "" && Visible(token) && token[0] != '"'
    ensures Parse(scheme + ([' '] + (key + (['='] + token)))) == Err(InvalidParameters)
  {
    hide TrimSpace, Cut, IndexOf, Space, TakeParam, ParseParams;
    var list := key + (['='] + token);
    var text := scheme + ([' '] + list);
    assert list[0] == key[0] && list[|list| - 1] == token[|token| - 1];
    assert text[0] == scheme[0] && text[|text| - 1] == token[|token| - 1];
    assert "" + text == text && "" + list == list && "" + key == key && "" + token == token;
    TrimmedText("", text);
    TrimmedText("", list);
    TrimmedText("", key);
    TrimmedText("", token);
    CutOfConcat(scheme, ' ', list);
    CutOfConcat(key, '=', token);
    Taken(list);
    ParseStep(list, map[]);
  }

  lemma {:induction false} ParameterErrors(raw: string, params: Params)
    ensures ParseParams(raw, params).Err? ==> ParseParams(raw, params) == Err(InvalidParameters)
    decreases |raw|
  {
    hide TakeParam;
    ParseStep(raw, params);
    if raw != "" && TakeParam(raw).Ok? {
      var (key, value, rest) := TakeParam(raw).value;
      TakingShortens(raw);
      if rest != "" && rest[0] == ',' { ParameterErrors(rest[1..], params[key := value]); }
    } else if raw != "" {
      OnlyError(raw);
    }
  }

  lemma OnlyError(raw: string)
    ensures TakeParam(raw).Err? ==> TakeParam(raw) == Err(InvalidParameters)
  {
  }

  /** Which error is reported: there is no challenge in a blank header, an invalid one without a blank behind
      the scheme, and invalid parameters in every other header that is not accepted. */
  lemma ErrorsExactlyWhere(input: string)
    ensures Parse(input) == Err(NoChallenge) <==> Blank(input)
    ensures Parse(input) == Err(InvalidChallenge) <==> !Blank(input) && ' ' !in TrimSpace(input)
    ensures Parse(input).Err? ==> Parse(input).error in {NoChallenge, InvalidChallenge, InvalidParameters}
  {
    hide TrimSpace, ParseParams, Blank, Visible, Cut;
    var header := TrimSpace(input);
    BlankIsTrimmedAway(input);
    if header != "" {
      CutRejoins(header, ' ');
      var (scheme, raw, found) := Cut(header, ' ');
      ParameterErrors(raw, map[]);
      if found { BehindTheBlank(input, scheme, raw); }
    }
  }

  lemma BlankIsTrimmedAway(s: string)
    ensures TrimSpace(s) == "" <==> Blank(s)
  {
    hide TrimSpace, Space;
    var before, after := TrimParts(s);
    if TrimSpace(s) == "" {
      BlankConcat(before, after);
      assert s == before + after;
    } else {
      assert s[|before|] == TrimSpace(s)[0];
    }
  }

  /** A trimmed header does not end with the blank behind its scheme. */
  lemma BehindTheBlank(input: string, scheme: string, raw: string)
    requires TrimSpace(input) == scheme + ([' '] + raw)
    ensures TrimSpace(raw) != ""
  {
    hide TrimSpace;
    var header := TrimSpace(input);
    var before, after := TrimParts(input);
    assert header[|header| - 1] == if raw == "" then ' ' else raw[|raw| - 1];
    BlankIsTrimmedAway(raw);
  }

  /** With distinct keys the parsed map holds every printed value under its key in lower case. */
  lemma {:induction false} EveryValueIsFound(params: seq<Param>, start: Params, i: nat)
    requires i < |params|
    requires forall j, k :: 0 <= j < k < |params| ==> Lower(params[j].key) != Lower(params[k].key)
    ensures var m := ToMap(params, start); Lower(params[i].key) in m && m[Lower(params[i].key)] == params[i].value
    decreases |params|
  {
    var next := start[Lower(params[0].key) := params[0].value];
    if i == 0 {
      Untouched(params[1..], next, Lower(params[0].key));
    } else {
      EveryValueIsFound(params[1..], next, i - 1);
    }
  }

  lemma {:induction false} Untouched(params: seq<Param>, start: Params, key: string)
    requires key in start && forall j :: 0 <= j < |params| ==> Lower(params[j].key) != key
    ensures key in ToMap(params, start) && ToMap(params, start)[key] == start[key]
    decreases |params|
  {
    if params != [] { Untouched(params[1..], start[Lower(params[0].key) := params[0].value], key); }
  }
}
