/** Properties of the vita parser: blank lines do not matter, the last
    contact line wins, and the timeline equals an independent grouping of the
    content lines into year segments of paired lines. */
module VitaProperties {
  import opened Optional
  import opened Text
  import opened Vita

  /* ---------------------------------------------------------------------- */
  /* Composition of the fold                                                 */
  /* ---------------------------------------------------------------------- */

  lemma {:induction false} RunAppend(p: Parser, a: seq<string>, b: seq<string>)
    ensures Run(p, a + b) == Run(Run(p, a), b)
    decreases |a|
  {
    if |a| > 0 {
      assert (a + b)[0] == a[0];
      assert (a + b)[1..] == a[1..] + b;
      RunAppend(Step(p, a[0]), a[1..], b);
    } else {
      assert a + b == b;
    }
  }

  /** One line appended at the end is one more step. */
  lemma RunSnoc(p: Parser, a: seq<string>, x: string)
    ensures Run(p, a + [x]) == Step(Run(p, a), x)
  {
    RunAppend(p, a, [x]);
  }

  /* ---------------------------------------------------------------------- */
  /* Empty lines                                                             */
  /* ---------------------------------------------------------------------- */

  /** An empty (trimmed) line inserted anywhere changes nothing. */
  lemma EmptyLineIgnored(p: Parser, a: seq<string>, b: seq<string>)
    ensures Run(p, a + [""] + b) == Run(p, a + b)
  {
    RunAppend(p, a + [""], b);
    RunSnoc(p, a, "");
    RunAppend(p, a, b);
  }

  function WithoutEmpty(lines: seq<string>): (r: seq<string>)
    ensures forall i :: 0 <= i < |r| ==> r[i] != ""
    ensures |r| <= |lines|
  {
    if |lines| == 0 then []
    else if lines[0] == "" then WithoutEmpty(lines[1..])
    else [lines[0]] + WithoutEmpty(lines[1..])
  }

  /** Deleting every empty line gives the same parse. */
  lemma {:induction false} EmptyLinesIgnored(p: Parser, lines: seq<string>)
    ensures Run(p, lines) == Run(p, WithoutEmpty(lines))
    decreases |lines|
  {
    if |lines| > 0 {
      EmptyLinesIgnored(Step(p, lines[0]), lines[1..]);
      if lines[0] != "" {
        var w := WithoutEmpty(lines);
        assert w[0] == lines[0] && w[1..] == WithoutEmpty(lines[1..]);
      }
    }
  }

  lemma ParseIgnoresEmptyLines(lines: seq<string>)
    ensures ParseLines(lines) == ParseLines(WithoutEmpty(lines))
  {
    EmptyLinesIgnored(Start, lines);
  }

  /** Before trimming: a line of whitespace only, inserted anywhere in the
      text's lines, leaves the parse unchanged. */
  lemma BlankRawLineIgnored(a: seq<string>, w: string, b: seq<string>)
    requires IsBlank(w)
    ensures ParseLines(TrimAll(a + [w] + b)) == ParseLines(TrimAll(a + b))
  {
    var ta, tb := TrimAll(a), TrimAll(b);
    TrimAllAppend(a + [w], b);
    TrimAllAppend(a, [w]);
    TrimAllAppend(a, b);
    assert TrimAll([w]) == [""];
    EmptyLineIgnored(Start, ta, tb);
  }

  lemma {:induction false} TrimAllAppend(a: seq<string>, b: seq<string>)
    ensures TrimAll(a + b) == TrimAll(a) + TrimAll(b)
  {
    MapAppend(Trim, a, b);
  }

  /** Mapping a function over a concatenation maps each part. */
  lemma MapAppend<A, B>(f: A -> B, a: seq<A>, b: seq<A>)
    ensures seq(|a + b|, i requires 0 <= i < |a + b| => f((a + b)[i]))
         == seq(|a|, i requires 0 <= i < |a| => f(a[i])) + seq(|b|, i requires 0 <= i < |b| => f(b[i]))
  {
    var l := seq(|a + b|, i requires 0 <= i < |a + b| => f((a + b)[i]));
    var r := seq(|a|, i requires 0 <= i < |a| => f(a[i])) + seq(|b|, i requires 0 <= i < |b| => f(b[i]));
    forall i | 0 <= i < |l|
      ensures l[i] == r[i]
    {
      if i < |a| {
        assert (a + b)[i] == a[i];
      } else {
        assert (a + b)[i] == b[i - |a|];
      }
    }
  }

  /* ---------------------------------------------------------------------- */
  /* Contact                                                                 */
  /* ---------------------------------------------------------------------- */

  /** The value of the last contact line of `lines`, scanning from the end. */
  function LastContact(lines: seq<string>): (r: Option<string>)
    ensures r.Some? <==> exists i :: 0 <= i < |lines| && IsContactLine(lines[i])
  {
    if |lines| == 0 then None
    else if IsContactLine(lines[|lines| - 1]) then Some(ContactValue(lines[|lines| - 1]))
    else
      var r := LastContact(lines[..|lines| - 1]);
      assert forall i :: 0 <= i < |lines| - 1 ==> lines[..|lines| - 1][i] == lines[i];
      r
  }

  /** The contact the parser ends with is the last contact line's value, or
      the one it started with when no line is a contact line. */
  lemma {:induction false} RunContact(p: Parser, lines: seq<string>)
    ensures Run(p, lines).contact
         == (if LastContact(lines).Some? then LastContact(lines) else p.contact)
    decreases |lines|
  {
    if |lines| > 0 {
      var front := lines[..|lines| - 1];
      var x := lines[|lines| - 1];
      assert lines == front + [x];
      RunSnoc(p, front, x);
      RunContact(p, front);
      StepContact(Run(p, front), x);
    }
  }

  lemma StepContact(p: Parser, x: string)
    ensures Step(p, x).contact
         == (if IsContactLine(x) then Some(ContactValue(x)) else p.contact)
  {
  }

  /** `contact` is set by the last line starting with `contact:` in any case,
      and stays unset when there is none. */
  lemma ParseContact(lines: seq<string>)
    ensures ParseLines(lines).contact == LastContact(lines)
  {
    RunContact(Start, lines);
  }

  /* ---------------------------------------------------------------------- */
  /* An independent account of the timeline                                  */
  /* ---------------------------------------------------------------------- */

  /** A line that can take part in the timeline: not empty, not a contact line. */
  predicate IsContent(line: string) {
    line != "" && !IsContactLine(line)
  }

  /** A content line that is not a year line: a title or a detail. */
  predicate IsPlain(line: string) {
    IsContent(line) && !IsYearLine(line)
  }

  function Content(lines: seq<string>): (r: seq<string>)
    ensures forall i :: 0 <= i < |r| ==> IsContent(r[i]) && r[i] in lines
  {
    if |lines| == 0 then []
    else if IsContent(lines[0]) then [lines[0]] + Content(lines[1..])
    else Content(lines[1..])
  }

  /** The lines from the first year line on. */
  function FromFirstYear(c: seq<string>): (r: seq<string>)
    ensures r == [] || IsYearLine(r[0])
    ensures |r| <= |c| && r == c[|c| - |r|..]
    ensures forall i :: 0 <= i < |c| - |r| ==> !IsYearLine(c[i])
  {
    if |c| == 0 || IsYearLine(c[0]) then c else FromFirstYear(c[1..])
  }

  /** The longest prefix of `c` without a year line. */
  function Segment(c: seq<string>): (r: seq<string>)
    ensures |r| <= |c| && r == c[..|r|]
    ensures forall i :: 0 <= i < |r| ==> !IsYearLine(r[i])
    ensures |r| == |c| || IsYearLine(c[|r|])
  {
    if |c| == 0 || IsYearLine(c[0]) then [] else [c[0]] + Segment(c[1..])
  }

  /** Successive lines paired into (title, detail) items; an odd last line
      is left over. */
  function Pairs(seg: seq<string>): (r: seq<Item>)
    ensures |r| == |seg| / 2
    ensures forall k :: 0 <= k < |r| ==> r[k] == Item(seg[2 * k], seg[2 * k + 1])
  {
    if |seg| < 2 then [] else [Item(seg[0], seg[1])] + Pairs(seg[2..])
  }

  function Leftover(seg: seq<string>): Option<string> {
    if |seg| % 2 == 1 then Some(seg[|seg| - 1]) else None
  }

  /** The items of a year whose following lines are `d`: the lines up to the
      next year, paired in order, plus a title left over when no year
      follows. */
  function FirstItems(d: seq<string>): seq<Item> {
    var seg := Segment(d);
    Pairs(seg)
      + (if |seg| == |d| && Leftover(seg).Some? then [Item(Leftover(seg).value, "")] else [])
  }

  /** Year blocks of year `y` followed by content lines `d`: each year takes
      the plain lines up to the next year, paired in order; a title left over
      is kept only in the last year; a year without items is dropped. */
  function YearGroups(y: string, d: seq<string>): seq<YearBlock>
    decreases |d|
  {
    var rest := d[|Segment(d)|..];
    Closed(Some(y), FirstItems(d)) + (if rest == [] then [] else YearGroups(rest[0], rest[1..]))
  }

  /** Year blocks of content lines `c` that start with a year line. */
  function Groups(c: seq<string>): seq<YearBlock>
    requires c == [] || IsYearLine(c[0])
  {
    if c == [] then [] else YearGroups(c[0], c[1..])
  }

  /** The timeline as the page should show it for trimmed `lines`. */
  function Timeline(lines: seq<string>): seq<YearBlock> {
    Groups(FromFirstYear(Content(lines)))
  }

  /* ---------------------------------------------------------------------- */
  /* The fold agrees with the grouping                                       */
  /* ---------------------------------------------------------------------- */

  /** The parser state with the contact forgotten. */
  function Shape(p: Parser): Parser {
    p.(contact := None)
  }

  lemma {:induction false} RunShape(p: Parser, lines: seq<string>)
    ensures Shape(Run(p, lines)) == Shape(Run(Shape(p), lines))
    decreases |lines|
  {
    if |lines| > 0 {
      assert Shape(Step(p, lines[0])) == Shape(Step(Shape(p), lines[0]));
      RunShape(Step(p, lines[0]), lines[1..]);
      RunShape(Step(Shape(p), lines[0]), lines[1..]);
    }
  }

  /** Empty and contact lines affect nothing but the contact. */
  lemma {:induction false} RunContent(p: Parser, lines: seq<string>)
    ensures Shape(Run(p, lines)) == Shape(Run(p, Content(lines)))
    decreases |lines|
  {
    if |lines| > 0 {
      var x, rest := lines[0], lines[1..];
      RunContent(Step(p, x), rest);
      if IsContent(x) {
        var c := Content(lines);
        assert c[0] == x && c[1..] == Content(rest);
      } else {
        assert Shape(Step(p, x)) == Shape(p);
        RunShape(Step(p, x), rest);
        RunShape(p, rest);
        RunShape(p, Content(rest));
        RunShape(Step(p, x), Content(rest));
      }
    }
  }

  /** Inside a year with no title pending, plain lines pair up in order. */
  lemma {:induction false} RunSegment(p: Parser, seg: seq<string>)
    requires p.year.Some? && p.pending.None?
    requires forall i :: 0 <= i < |seg| ==> IsPlain(seg[i])
    ensures Run(p, seg) == p.(items := p.items + Pairs(seg), pending := Leftover(seg))
    decreases |seg|
  {
    if |seg| == 1 {
      assert Run(p, seg) == Run(Step(p, seg[0]), []);
    } else if |seg| >= 2 {
      var q := p.(items := p.items + [Item(seg[0], seg[1])]);
      assert Step(Step(p, seg[0]), seg[1]) == q;
      assert seg[1..][0] == seg[1] && seg[1..][1..] == seg[2..];
      assert Run(p, seg) == Run(q, seg[2..]);
      RunSegment(q, seg[2..]);
      assert Pairs(seg) == [Item(seg[0], seg[1])] + Pairs(seg[2..]);
      assert Leftover(seg) == Leftover(seg[2..]);
    } else {
      assert Pairs(seg) == [];
    }
  }

  /** A year line closes the current year, keeping it only when it has
      items, and drops a pending title. */
  lemma StepYear(q: Parser, y: string)
    requires IsYearLine(y)
    ensures Step(q, y) == q.(timeline := q.timeline + Closed(q.year, q.items),
                             year := Some(y), items := [], pending := None)
  {
  }

  /** From a freshly opened year `y`, the rest of the content lines yields
      exactly the blocks of `YearGroups(y, c)`. */
  lemma {:induction false} RunGroups(p: Parser, y: string, c: seq<string>)
    requires IsYearLine(y) && p.year == Some(y) && p.items == [] && p.pending.None?
    requires forall i :: 0 <= i < |c| ==> IsContent(c[i])
    ensures Finish(Run(p, c)).timeline == p.timeline + YearGroups(y, c)
    decreases |c|, 2
  {
    if |Segment(c)| == |c| {
      RunFirstSegment(p, c);
      FinishLastYear(p, c);
    } else {
      RunGroupsMore(p, y, c);
    }
  }

  /** `RunGroups` when another year line follows the first segment. */
  lemma {:induction false} RunGroupsMore(p: Parser, y: string, c: seq<string>)
    requires IsYearLine(y) && p.year == Some(y) && p.items == [] && p.pending.None?
    requires forall i :: 0 <= i < |c| ==> IsContent(c[i])
    requires |Segment(c)| < |c|
    ensures Finish(Run(p, c)).timeline == p.timeline + YearGroups(y, c)
    decreases |c|, 1
  {
    var seg := Segment(c);
    var q := p.(items := Pairs(seg), pending := Leftover(seg));
    var y2, more := c[|seg|], c[|seg| + 1..];
    var q2 := Step(q, y2);
    var head := Closed(Some(y), FirstItems(c));
    assert Run(p, c) == Run(q2, more) by {
      RunFirstSegment(p, c);
      NextYear(p, c);
    }
    RunNextYear(p, c);
    YearGroupsNext(y, c);
    ConcatAssoc(p.timeline, head, YearGroups(y2, more));
  }

  /** A year followed by another year line: its own block, then the groups
      from that line on. */
  lemma YearGroupsNext(y: string, c: seq<string>)
    requires |Segment(c)| < |c|
    ensures var k := |Segment(c)|;
            YearGroups(y, c) == Closed(Some(y), FirstItems(c)) + YearGroups(c[k], c[k + 1..])
  {
    var k := |Segment(c)|;
    assert c[k..][0] == c[k] && c[k..][1..] == c[k + 1..];
  }

  /** The fold from the second year on, in terms of the first year's block. */
  lemma {:induction false} RunNextYear(p: Parser, c: seq<string>)
    requires p.year.Some? && IsYearLine(p.year.value) && p.items == [] && p.pending.None?
    requires forall i :: 0 <= i < |c| ==> IsContent(c[i])
    requires |Segment(c)| < |c|
    ensures var seg := Segment(c);
            var q := p.(items := Pairs(seg), pending := Leftover(seg));
            Finish(Run(Step(q, c[|seg|]), c[|seg| + 1..])).timeline
              == (p.timeline + Closed(p.year, FirstItems(c))) + YearGroups(c[|seg|], c[|seg| + 1..])
    decreases |c|, 0
  {
    var seg := Segment(c);
    var q := p.(items := Pairs(seg), pending := Leftover(seg));
    NextYear(p, c);
    ContentSuffix(c, |seg| + 1);
    RunGroups(Step(q, c[|seg|]), c[|seg|], c[|seg| + 1..]);
  }

  lemma ConcatAssoc<T>(a: seq<T>, b: seq<T>, c: seq<T>)
    ensures (a + b) + c == a + (b + c)
  {
  }

  /** When no year follows, finishing closes the open year with its items
      and any pending title. */
  lemma FinishLastYear(p: Parser, c: seq<string>)
    requires p.year.Some? && p.items == [] && p.pending.None?
    requires |Segment(c)| == |c|
    ensures var q := p.(items := Pairs(Segment(c)), pending := Leftover(Segment(c)));
            Finish(Run(q, [])).timeline == p.timeline + Closed(p.year, FirstItems(c))
  {
  }

  /** A following year line closes the open year with its paired items. */
  lemma NextYear(p: Parser, c: seq<string>)
    requires p.year.Some? && p.items == [] && p.pending.None?
    requires |Segment(c)| < |c|
    ensures var seg := Segment(c);
            var q := p.(items := Pairs(seg), pending := Leftover(seg));
            && IsYearLine(c[|seg|])
            && Run(q, c[|seg|..]) == Run(Step(q, c[|seg|]), c[|seg| + 1..])
            && Step(q, c[|seg|]) == p.(timeline := p.timeline + Closed(p.year, FirstItems(c)),
                                       year := Some(c[|seg|]))
  {
    var seg := Segment(c);
    var q := p.(items := Pairs(seg), pending := Leftover(seg));
    var y := c[|seg|];
    assert IsYearLine(y);
    StepYear(q, y);
    assert FirstItems(c) == Pairs(seg);
    assert Step(q, y).items == [] && Step(q, y).pending.None?;
    assert Step(q, y).timeline == p.timeline + Closed(p.year, FirstItems(c));
    assert Step(q, y).contact == p.contact;
    assert c[|seg|..][1..] == c[|seg| + 1..];
  }

  /** The fold over the first segment after a year line pairs its lines. */
  lemma RunFirstSegment(p: Parser, c: seq<string>)
    requires p.year.Some? && p.items == [] && p.pending.None?
    requires forall i :: 0 <= i < |c| ==> IsContent(c[i])
    ensures var seg := Segment(c);
            Run(p, c) == Run(p.(items := Pairs(seg), pending := Leftover(seg)), c[|seg|..])
  {
    var seg := Segment(c);
    assert c == seg + c[|seg|..];
    RunAppend(p, seg, c[|seg|..]);
    RunSegment(p, seg);
    assert p.items + Pairs(seg) == Pairs(seg);
  }

  /** On content lines, the fold's timeline is the grouping of the lines
      from the first year on: lines before it are ignored. */
  lemma {:induction false} RunBeforeYear(c: seq<string>)
    requires forall i :: 0 <= i < |c| ==> IsContent(c[i])
    ensures Finish(Run(Start, c)).timeline == Groups(FromFirstYear(c))
    decreases |c|
  {
    if |c| > 0 {
      if IsYearLine(c[0]) {
        var p := Step(Start, c[0]);
        assert p == Start.(year := Some(c[0]));
        RunGroups(p, c[0], c[1..]);
      } else {
        assert Step(Start, c[0]) == Start;
        RunBeforeYear(c[1..]);
      }
    }
  }

  /** The parser's timeline is the independent grouping `Timeline`. */
  lemma ParseTimeline(lines: seq<string>)
    ensures ParseLines(lines).timeline == Timeline(lines)
  {
    var c := Content(lines);
    RunContent(Start, lines);
    RunBeforeYear(c);
    assert Finish(Run(Start, lines)).timeline == Finish(Shape(Run(Start, lines))).timeline;
    assert Finish(Run(Start, c)).timeline == Finish(Shape(Run(Start, c))).timeline;
  }

  /* ---------------------------------------------------------------------- */
  /* Consequences                                                            */
  /* ---------------------------------------------------------------------- */

  lemma {:induction false} ContentAppend(a: seq<string>, b: seq<string>)
    ensures Content(a + b) == Content(a) + Content(b)
    decreases |a|
  {
    if |a| > 0 {
      assert (a + b)[0] == a[0] && (a + b)[1..] == a[1..] + b;
      ContentAppend(a[1..], b);
    } else {
      assert a + b == b;
    }
  }

  lemma {:induction false} FromFirstYearSkips(a: seq<string>, b: seq<string>)
    requires forall i :: 0 <= i < |a| ==> !IsYearLine(a[i])
    ensures FromFirstYear(a + b) == FromFirstYear(b)
    decreases |a|
  {
    if |a| > 0 {
      assert (a + b)[0] == a[0] && (a + b)[1..] == a[1..] + b;
      FromFirstYearSkips(a[1..], b);
    } else {
      assert a + b == b;
    }
  }

  /** Lines before the first year line never reach the timeline. */
  lemma LinesBeforeFirstYearIgnored(pre: seq<string>, rest: seq<string>)
    requires forall i :: 0 <= i < |pre| ==> !IsYearLine(pre[i])
    ensures ParseLines(pre + rest).timeline == ParseLines(rest).timeline
  {
    ParseTimeline(pre + rest);
    ParseTimeline(rest);
    ContentAppend(pre, rest);
    FromFirstYearSkips(Content(pre), Content(rest));
  }

  /** An item as the parser builds it: the title is a plain line of `c`, the
      detail is another one or empty. */
  predicate ItemFrom(it: Item, c: seq<string>) {
    && IsPlain(it.title) && it.title in c
    && (it.detail == "" || (IsPlain(it.detail) && it.detail in c))
  }

  /** Every block has a year line of `c` and at least one item, and each
      item comes from `c`. */
  predicate BlocksFrom(t: seq<YearBlock>, c: seq<string>) {
    forall b :: 0 <= b < |t| ==>
      && IsYearLine(t[b].year) && t[b].year in c && |t[b].items| > 0
      && forall k :: 0 <= k < |t[b].items| ==> ItemFrom(t[b].items[k], c)
  }

  /** Only the last item of the last block may have an empty detail. */
  predicate OnlyLastDetailEmpty(t: seq<YearBlock>) {
    forall b, k :: 0 <= b < |t| && 0 <= k < |t[b].items| && t[b].items[k].detail == "" ==>
      b == |t| - 1 && k == |t[b].items| - 1
  }

  /** A block list built from lines of `c1` is built from lines of any `c2`
      containing them. */
  lemma BlocksFromWiden(t: seq<YearBlock>, c1: seq<string>, c2: seq<string>)
    requires BlocksFrom(t, c1)
    requires forall x :: x in c1 ==> x in c2
    ensures BlocksFrom(t, c2)
  {
    forall b | 0 <= b < |t|
      ensures forall k :: 0 <= k < |t[b].items| ==> ItemFrom(t[b].items[k], c2)
    {
      forall k | 0 <= k < |t[b].items|
        ensures ItemFrom(t[b].items[k], c2)
      {
        assert ItemFrom(t[b].items[k], c1);
      }
    }
  }

  /** The items of the first year of `c`. */
  lemma {:induction false} FirstItemsShape(c: seq<string>)
    requires forall i :: 0 <= i < |c| ==> IsContent(c[i])
    ensures forall k :: 0 <= k < |FirstItems(c)| ==> ItemFrom(FirstItems(c)[k], c)
    ensures forall k :: 0 <= k < |FirstItems(c)| && FirstItems(c)[k].detail == "" ==>
      |Segment(c)| == |c| && k == |FirstItems(c)| - 1
  {
    var seg := Segment(c);
    var items := FirstItems(c);
    forall k | 0 <= k < |items|
      ensures ItemFrom(items[k], c)
      ensures items[k].detail == "" ==> |seg| == |c| && k == |items| - 1
    {
      if k < |Pairs(seg)| {
        assert items[k] == Item(seg[2 * k], seg[2 * k + 1]);
        assert c[2 * k] == seg[2 * k] && c[2 * k + 1] == seg[2 * k + 1];
      } else {
        assert items[k].title == c[|seg| - 1];
      }
    }
  }

  /** No item of `t` has an empty detail. */
  predicate NoEmptyDetail(t: seq<YearBlock>) {
    forall b, k :: 0 <= b < |t| && 0 <= k < |t[b].items| ==> t[b].items[k].detail != ""
  }

  lemma BlocksAppend(t1: seq<YearBlock>, t2: seq<YearBlock>, c: seq<string>)
    requires BlocksFrom(t1, c) && BlocksFrom(t2, c)
    requires OnlyLastDetailEmpty(t1) && OnlyLastDetailEmpty(t2)
    requires t2 != [] ==> NoEmptyDetail(t1)
    ensures BlocksFrom(t1 + t2, c)
    ensures OnlyLastDetailEmpty(t1 + t2)
  {
    var t := t1 + t2;
    forall b | 0 <= b < |t|
      ensures t[b] == if b < |t1| then t1[b] else t2[b - |t1|]
    {
    }
  }

  /** The first block of `[y] + d`, if kept, is built from lines of `[y] + d`;
      its only possible empty detail is its last item's, and then `d` has no
      further year. */
  lemma {:induction false} HeadShape(y: string, d: seq<string>)
    requires IsYearLine(y)
    requires forall i :: 0 <= i < |d| ==> IsContent(d[i])
    ensures BlocksFrom(Closed(Some(y), FirstItems(d)), [y] + d)
    ensures OnlyLastDetailEmpty(Closed(Some(y), FirstItems(d)))
    ensures |Segment(d)| < |d| ==> NoEmptyDetail(Closed(Some(y), FirstItems(d)))
  {
    FirstItemsShape(d);
    var items := FirstItems(d);
    var c := [y] + d;
    assert forall x :: x in d ==> x in c;
    forall k | 0 <= k < |items|
      ensures ItemFrom(items[k], c)
    {
      assert ItemFrom(items[k], d);
    }
  }

  lemma GroupsShape(c: seq<string>)
    requires c == [] || IsYearLine(c[0])
    requires forall i :: 0 <= i < |c| ==> IsContent(c[i])
    ensures BlocksFrom(Groups(c), c)
    ensures OnlyLastDetailEmpty(Groups(c))
  {
    if c != [] {
      ContentSuffix(c, 1);
      YearGroupsShape(c[0], c[1..]);
      assert [c[0]] + c[1..] == c;
    }
  }

  lemma {:induction false} YearGroupsShape(y: string, d: seq<string>)
    requires IsYearLine(y)
    requires forall i :: 0 <= i < |d| ==> IsContent(d[i])
    ensures BlocksFrom(YearGroups(y, d), [y] + d)
    ensures OnlyLastDetailEmpty(YearGroups(y, d))
    decreases |d|
  {
    var rest := d[|Segment(d)|..];
    var c := [y] + d;
    HeadShape(y, d);
    if rest == [] {
      assert YearGroups(y, d) == Closed(Some(y), FirstItems(d)) + [];
    } else {
      ContentSuffix(d, |Segment(d)|);
      ContentSuffix(rest, 1);
      assert [rest[0]] + rest[1..] == rest;
      YearGroupsShape(rest[0], rest[1..]);
      assert forall x :: x in rest ==> x in c;
      BlocksFromWiden(YearGroups(rest[0], rest[1..]), rest, c);
      BlocksAppend(Closed(Some(y), FirstItems(d)), YearGroups(rest[0], rest[1..]), c);
    }
  }

  /** A suffix of content lines is content lines drawn from the whole. */
  lemma ContentSuffix(c: seq<string>, k: nat)
    requires k <= |c|
    requires forall i :: 0 <= i < |c| ==> IsContent(c[i])
    ensures forall i :: 0 <= i < |c| - k ==> IsContent(c[k..][i])
    ensures forall x :: x in c[k..] ==> x in c
  {
    forall x | x in c[k..]
      ensures x in c
    {
      var i :| 0 <= i < |c| - k && c[k..][i] == x;
      assert c[k + i] == x;
    }
  }

  /** The shape of every parse: each block is a year line with at least one
      item; titles are non-empty lines that are neither year nor contact
      lines; a detail is such a line too, except that the very last item may
      have an empty one (a title left pending at the end). */
  lemma ParseShape(lines: seq<string>)
    ensures BlocksFrom(ParseLines(lines).timeline, lines)
    ensures OnlyLastDetailEmpty(ParseLines(lines).timeline)
  {
    ParseTimeline(lines);
    var c := FromFirstYear(Content(lines));
    TimelineLines(lines);
    GroupsShape(c);
    BlocksFromWiden(Timeline(lines), c, lines);
  }

  /** The lines the grouping starts from are content lines of `lines`. */
  lemma TimelineLines(lines: seq<string>)
    ensures var c := FromFirstYear(Content(lines));
            (forall i :: 0 <= i < |c| ==> IsContent(c[i]))
            && (forall x :: x in c ==> x in lines)
  {
    var cl := Content(lines);
    var c := FromFirstYear(cl);
    ContentSuffix(cl, |cl| - |c|);
    forall x | x in cl
      ensures x in lines
    {
      var i :| 0 <= i < |cl| && cl[i] == x;
    }
  }

  /** `parseVita` on raw text: the timeline is the grouping `Timeline` and
      the contact the last contact line's value, both taken over the trimmed
      lines of the text. */
  lemma ParseVitaSpec(raw: string)
    ensures var lines := TrimAll(Split(raw, '\n'));
      ParseVita(raw) == VitaData(Timeline(lines), LastContact(lines))
  {
    var lines := TrimAll(Split(raw, '\n'));
    ParseTimeline(lines);
    ParseContact(lines);
  }

  /** Titles and details of a parsed text are trimmed, and titles are never
      empty. */
  lemma ParseVitaTrimmed(raw: string)
    ensures var t := ParseVita(raw).timeline;
      forall b, k :: 0 <= b < |t| && 0 <= k < |t[b].items| ==>
        t[b].items[k].title != "" && IsTrimmed(t[b].items[k].title) && IsTrimmed(t[b].items[k].detail)
  {
    var lines := TrimAll(Split(raw, '\n'));
    ParseShape(lines);
    var t := ParseVita(raw).timeline;
    forall b, k | 0 <= b < |t| && 0 <= k < |t[b].items|
      ensures t[b].items[k].title != ""
      ensures IsTrimmed(t[b].items[k].title) && IsTrimmed(t[b].items[k].detail)
    {
      assert ItemFrom(t[b].items[k], lines);
    }
  }

  /** A title pending when the next year line arrives is dropped, while one
      pending at the end of the text is kept with an empty detail. */
  lemma DanglingTitles()
    ensures ParseLines(["2024", "A", "2023", "B", "C", "D"]).timeline
         == [YearBlock("2023", [Item("B", "C"), Item("D", "")])]
  {
    var lines := ["2024", "A", "2023", "B", "C", "D"];
    var p1 := Start.(year := Some("2024"));
    var p2 := p1.(pending := Some("A"));
    var p3 := Start.(year := Some("2023"));
    var p4 := p3.(pending := Some("B"));
    var p5 := p3.(items := [Item("B", "C")]);
    var p6 := p5.(pending := Some("D"));
    assert Run(Start, lines) == Run(p1, lines[1..]);
    assert Run(p1, lines[1..]) == Run(p2, lines[2..]);
    assert Run(p2, lines[2..]) == Run(p3, lines[3..]);
    assert Run(p3, lines[3..]) == Run(p4, lines[4..]);
    assert Run(p4, lines[4..]) == Run(p5, lines[5..]);
    assert Run(p5, lines[5..]) == Run(p6, []);
    assert [Item("B", "C")] + [Item("D", "")] == [Item("B", "C"), Item("D", "")];
    assert Finish(p6).timeline == [YearBlock("2023", [Item("B", "C"), Item("D", "")])];
  }
}
