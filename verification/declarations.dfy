/** The declaration syntax of the instance file: each parameter is one line
    `NAME=VALUE;` followed by a newline, where the source puts single spaces
    around `=` and before the newline in some declarations and not in others
    (`num_surgeons=…;\n`, `num_rooms=…; \n`, `end_time= …; \n`, `A = …; \n`).
    The parser reads any of these spellings back to the name and the value
    text. */
module Declarations {
  import opened Wrappers
  import opened Text

  datatype Decl = Decl(name: string, value: string,
                       spaceBeforeEquals: bool, spaceAfterEquals: bool, spaceBeforeNewline: bool)

  function Gap(present: bool): string {
    if present then " " else ""
  }

  function Render(d: Decl): string {
    d.name + Gap(d.spaceBeforeEquals) + "=" + Gap(d.spaceAfterEquals) + d.value + ";" + Gap(d.spaceBeforeNewline) + "\n"
  }

  function RenderAll(ds: seq<Decl>): string {
    if |ds| == 0 then "" else Render(ds[0]) + RenderAll(ds[1..])
  }

  /** A declaration the parser can read back: the name has no `=` and does
      not end in a space, the value has no `;` and does not start with one. */
  ghost predicate Readable(d: Decl) {
    && '=' !in d.name && (|d.name| == 0 || d.name[|d.name| - 1] != ' ')
    && ';' !in d.value && (|d.value| == 0 || d.value[0] != ' ')
  }

  function DropTrailingSpace(s: string): string {
    if |s| > 0 && s[|s| - 1] == ' ' then s[..|s| - 1] else s
  }

  function DropLeadingSpace(s: string): string {
    if |s| > 0 && s[0] == ' ' then s[1..] else s
  }

  /** What follows the `;` of a declaration: an optional space, then the newline. */
  function TailRest(s: string): (r: Option<string>)
    ensures r.Some? ==> |r.value| < |s|
  {
    if |s| >= 1 && s[0] == '\n' then Some(s[1..])
    else if |s| >= 2 && s[0] == ' ' && s[1] == '\n' then Some(s[2..])
    else None
  }

  /** Reads one declaration off the front of `s`: its name, its value text
      and what follows the line. */
  function ParseDecl(s: string): (r: Option<((string, string), string)>)
    ensures r.Some? ==> |r.value.1| < |s|
  {
    match SplitAt(s, '=')
    case None => None
    case Some((lhs, rhs)) =>
      match SplitAt(rhs, ';')
      case None => None
      case Some((v, rest)) =>
        match TailRest(rest)
        case None => None
        case Some(after) => Some(((DropTrailingSpace(lhs), DropLeadingSpace(v)), after))
  }

  /** Reads a whole run of declarations. */
  function ParseAll(s: string): (r: Option<seq<(string, string)>>)
    decreases |s|
  {
    if |s| == 0 then Some([])
    else match ParseDecl(s)
      case None => None
      case Some((pair, rest)) =>
        match ParseAll(rest)
        case None => None
        case Some(pairs) => Some([pair] + pairs)
  }

  /** The names and values of a list of declarations, in order. */
  function Pairs(ds: seq<Decl>): (ps: seq<(string, string)>)
    ensures |ps| == |ds|
  {
    seq(|ds|, i requires 0 <= i < |ds| => (ds[i].name, ds[i].value))
  }

  lemma RenderShape(d: Decl, rest: string)
    ensures Render(d) + rest
         == (d.name + Gap(d.spaceBeforeEquals)) + ['=']
            + ((Gap(d.spaceAfterEquals) + d.value) + [';'] + (Gap(d.spaceBeforeNewline) + "\n" + rest))
  {
  }

  /** How `ParseDecl` takes a line apart, step by step. */
  lemma ParseDeclSteps(s: string, lhs: string, rhs: string, v: string, tail: string, rest: string)
    requires SplitAt(s, '=') == Some((lhs, rhs))
    requires SplitAt(rhs, ';') == Some((v, tail))
    requires TailRest(tail) == Some(rest)
    ensures ParseDecl(s) == Some(((DropTrailingSpace(lhs), DropLeadingSpace(v)), rest))
  {
  }

  lemma NameRecovered(name: string, space: bool)
    requires |name| == 0 || name[|name| - 1] != ' '
    ensures DropTrailingSpace(name + Gap(space)) == name
  {
    if space {
      assert (name + " ")[..|name|] == name;
    }
  }

  lemma ValueRecovered(value: string, space: bool)
    requires |value| == 0 || value[0] != ' '
    ensures DropLeadingSpace(Gap(space) + value) == value
  {
    if space {
      assert (" " + value)[1..] == value;
    }
  }

  lemma TailRecovered(space: bool, rest: string)
    ensures TailRest(Gap(space) + "\n" + rest) == Some(rest)
  {
    var tail := Gap(space) + "\n" + rest;
    if space {
      assert tail[2..] == rest;
    } else {
      assert tail[1..] == rest;
    }
  }

  /** Reading back one rendered declaration gives its name and value and
      leaves what followed untouched. */
  lemma ParseRendered(d: Decl, rest: string, s: string)
    requires Readable(d)
    requires s == Render(d) + rest
    ensures ParseDecl(s) == Some(((d.name, d.value), rest))
  {
    var lhs := d.name + Gap(d.spaceBeforeEquals);
    var v := Gap(d.spaceAfterEquals) + d.value;
    var tail := Gap(d.spaceBeforeNewline) + "\n" + rest;
    var rhs := v + [';'] + tail;
    assert s == lhs + ['='] + rhs by {
      RenderShape(d, rest);
    }
    assert SplitAt(s, '=') == Some((lhs, rhs)) by {
      assert '=' !in lhs;
      SplitAtGlued(lhs, '=', rhs);
    }
    assert SplitAt(rhs, ';') == Some((v, tail)) by {
      assert ';' !in v;
      SplitAtGlued(v, ';', tail);
    }
    assert DropTrailingSpace(lhs) == d.name by {
      NameRecovered(d.name, d.spaceBeforeEquals);
    }
    assert DropLeadingSpace(v) == d.value by {
      ValueRecovered(d.value, d.spaceAfterEquals);
    }
    assert TailRest(tail) == Some(rest) by {
      TailRecovered(d.spaceBeforeNewline, rest);
    }
    ParseDeclSteps(s, lhs, rhs, v, tail, rest);
  }

  lemma PairsCons(ds: seq<Decl>)
    requires |ds| > 0
    ensures Pairs(ds) == [(ds[0].name, ds[0].value)] + Pairs(ds[1..])
  {
  }

  /** Rendering a list of readable declarations and parsing the text gives
      back every name and value, in order. */
  lemma {:induction false} ParseRenderedAll(ds: seq<Decl>)
    requires forall i :: 0 <= i < |ds| ==> Readable(ds[i])
    ensures ParseAll(RenderAll(ds)) == Some(Pairs(ds))
  {
    if |ds| > 0 {
      var rest := RenderAll(ds[1..]);
      var s := Render(ds[0]) + rest;
      assert RenderAll(ds) == s;
      assert |s| > 0 by {
        assert |Render(ds[0])| > 0;
      }
      ParseRendered(ds[0], rest, s);
      ParseRenderedAll(ds[1..]);
      assert ParseAll(s) == Some([(ds[0].name, ds[0].value)] + Pairs(ds[1..]));
      PairsCons(ds);
    }
  }

  /** The rendering of a list is the rendering of its two halves. */
  lemma {:induction false} RenderAllAppend(xs: seq<Decl>, ys: seq<Decl>)
    ensures RenderAll(xs + ys) == RenderAll(xs) + RenderAll(ys)
  {
    if |xs| > 0 {
      assert (xs + ys)[1..] == xs[1..] + ys;
      RenderAllAppend(xs[1..], ys);
    } else {
      assert xs + ys == ys;
    }
  }

  lemma PairsAppend(xs: seq<Decl>, ys: seq<Decl>)
    ensures Pairs(xs + ys) == Pairs(xs) + Pairs(ys)
  {
  }

  lemma ReadableAppend(xs: seq<Decl>, ys: seq<Decl>)
    requires forall i :: 0 <= i < |xs| ==> Readable(xs[i])
    requires forall i :: 0 <= i < |ys| ==> Readable(ys[i])
    ensures forall i :: 0 <= i < |xs + ys| ==> Readable((xs + ys)[i])
  {
  }
}
