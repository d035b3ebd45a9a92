/** Splitting a streamed text at its think tags. */
module Think {
  /** Lower-casing, one character at a time. */
  type Lower = char -> char

  /** One opening angle bracket, and only at the front. */
  predicate IsTag(tag: string) {
    |tag| > 1 && tag[0] == '<' && '<' !in tag[1..]
  }

  /** What the splitter looks for. */
  datatype RawScanner = Scanner(lower: Lower, open: string, close: string)
  type Scanner = c: RawScanner | IsTag(c.open) && IsTag(c.close) witness Scanner(x => x, "<t", "</")

  /** The scanner of `_split_think`. */
  function ThinkTags(lower: Lower): Scanner {
    Scanner(lower, "<think>", "</think>")
  }

  /** Lower-casing neither makes nor removes an angle bracket. */
  ghost predicate Proper(c: Scanner) {
    forall x :: c.lower(x) == '<' <==> x == '<'
  }

  /** The characters of the opening tag are already lower case. */
  ghost predicate FixesTags(c: Scanner) {
    forall k | 0 <= k < |c.open| :: c.lower(c.open[k]) == c.open[k]
  }

  /** `tag.startswith(text.lower())` */
  predicate Begins(lower: Lower, text: string, tag: string) {
    text == "" || (tag != "" && lower(text[0]) == tag[0] && Begins(lower, text[1..], tag[1..]))
  }

  predicate Agrees(lower: Lower, text: string, tag: string) {
    |text| <= |tag| && forall k | 0 <= k < |text| :: lower(text[k]) == tag[k]
  }

  lemma {:induction false} BeginsIsAgrees(lower: Lower, text: string, tag: string)
    ensures Begins(lower, text, tag) <==> Agrees(lower, text, tag)
  {
    if text != "" && tag != "" {
      BeginsIsAgrees(lower, text[1..], tag[1..]);
      assert forall k | 1 <= k < |text| :: text[k] == text[1..][k - 1];
      assert forall k | 1 <= k < |tag| :: tag[k] == tag[1..][k - 1];
    }
  }

  /** `tag` occurs in the lower-cased text at `at`. */
  predicate Occurs(lower: Lower, text: string, tag: string, at: nat) {
    at + |tag| <= |text| && Begins(lower, text[at..at + |tag|], tag)
  }

  /** `lower.find(tag, from)` */
  function Find(lower: Lower, text: string, tag: string, from: nat): (at: int)
    requires from <= |text|
    ensures at == -1 || from <= at <= at + |tag| <= |text|
    decreases |text| - from
  {
    if Occurs(lower, text, tag, from) then from
    else if from == |text| then -1
    else Find(lower, text, tag, from + 1)
  }

  /** `text.rfind("<")` */
  function LastAngle(text: string): (at: int)
    ensures -1 <= at < |text|
  {
    if text == "" then -1
    else if text[|text| - 1] == '<' then |text| - 1
    else LastAngle(text[..|text| - 1])
  }

  predicate PartialTag(c: Scanner, text: string) {
    Begins(c.lower, text, c.open) || Begins(c.lower, text, c.close)
  }

  /** `_without_partial_tag` */
  function WithoutPartial(c: Scanner, text: string): string {
    var marker := LastAngle(text);
    if marker >= 0 && PartialTag(c, text[marker..]) then text[..marker] else text
  }

  /** Where the first think block of a text stands: none, one that is still open, or a closed one. */
  datatype Shape =
    | Outside
    | Unclosed(start: nat)
    | Closed(start: nat, end: nat)

  function ShapeOf(c: Scanner, text: string): (shape: Shape)
    ensures shape.Unclosed? ==> shape.start + |c.open| <= |text|
    ensures shape.Closed? ==> shape.start + |c.open| <= shape.end <= shape.end + |c.close| <= |text|
  {
    var start := Find(c.lower, text, c.open, 0);
    if start < 0 then
      Outside
    else
      var end := Find(c.lower, text, c.close, start + |c.open|);
      if end < 0 then Unclosed(start) else Closed(start, end)
  }

  /** What `_split_think` shows of what is left of the text. */
  function Visible(c: Scanner, text: string): string
    decreases |text|
  {
    match ShapeOf(c, text)
    case Outside => WithoutPartial(c, text)
    case Unclosed(start) => WithoutPartial(c, text[..start])
    case Closed(start, end) => WithoutPartial(c, text[..start]) + Visible(c, text[end + |c.close|..])
  }

  /** What `_split_think` takes for reasoning in what is left of the text. */
  function Reasoning(c: Scanner, text: string): string
    decreases |text|
  {
    match ShapeOf(c, text)
    case Outside => ""
    case Unclosed(start) => WithoutPartial(c, text[start + |c.open|..])
    case Closed(start, end) => text[start + |c.open|..end] + Reasoning(c, text[end + |c.close|..])
  }

  /** A search finds the first occurrence, if there is one. */
  lemma {:induction false} FindIsFirst(lower: Lower, text: string, tag: string, from: nat)
    requires from <= |text|
    ensures var at := Find(lower, text, tag, from);
            && (at >= 0 ==> Occurs(lower, text, tag, at))
            && forall k | from <= k && (at == -1 || k < at) :: !Occurs(lower, text, tag, k)
    decreases |text| - from
  {
    if !Occurs(lower, text, tag, from) && from < |text| {
      FindIsFirst(lower, text, tag, from + 1);
    }
  }

  lemma FindUnique(lower: Lower, text: string, tag: string, from: nat, at: int)
    requires from <= |text|
    requires at == -1 || (from <= at && Occurs(lower, text, tag, at))
    requires forall k | from <= k && (at == -1 || k < at) :: !Occurs(lower, text, tag, k)
    ensures Find(lower, text, tag, from) == at
  {
    FindIsFirst(lower, text, tag, from);
  }

  lemma OccursShift(lower: Lower, text: string, tag: string, from: nat, k: nat)
    requires from <= |text|
    ensures Occurs(lower, text[from..], tag, k) <==> Occurs(lower, text, tag, from + k)
  {
    if k + |tag| <= |text| - from {
      assert text[from..][k..k + |tag|] == text[from + k..from + k + |tag|];
    }
  }

  /** Searching the rest of a text is searching the text from there. */
  lemma FindShift(lower: Lower, text: string, tag: string, cursor: nat, from: nat)
    requires cursor + from <= |text|
    ensures var at := Find(lower, text[cursor..], tag, from);
            Find(lower, text, tag, cursor + from) == if at < 0 then -1 else cursor + at
  {
    var rest := text[cursor..];
    var at := Find(lower, rest, tag, from);
    FindIsFirst(lower, rest, tag, from);
    if at >= 0 {
      OccursShift(lower, text, tag, cursor, at);
    }
    forall k | cursor + from <= k && (at == -1 || k < cursor + at)
      ensures !Occurs(lower, text, tag, k)
    {
      OccursShift(lower, text, tag, cursor, k - cursor);
      assert !Occurs(lower, rest, tag, k - cursor);
    }
    FindUnique(lower, text, tag, cursor + from, if at < 0 then -1 else cursor + at);
  }

  /** The tags that the loop finds from its cursor are the first block of what is left. */
  lemma ShapeAt(c: Scanner, text: string, cursor: nat, start: int, end: int)
    requires cursor <= |text| && start == Find(c.lower, text, c.open, cursor)
    requires start >= 0 ==> end == Find(c.lower, text, c.close, start + |c.open|)
    ensures ShapeOf(c, text[cursor..]) ==
            if start < 0 then Outside
            else if end < 0 then Unclosed(start - cursor)
            else Closed(start - cursor, end - cursor)
  {
    FindShift(c.lower, text, c.open, cursor, 0);
    if start >= 0 {
      FindShift(c.lower, text, c.close, cursor, start - cursor + |c.open|);
    }
  }

  /** One turn of the loop below that finds a whole block. */
  lemma ClosedTurn(c: Scanner, text: string, cursor: nat, start: nat, end: nat)
    requires cursor <= |text| && start == Find(c.lower, text, c.open, cursor)
    requires end == Find(c.lower, text, c.close, start + |c.open|)
    ensures Visible(c, text[cursor..]) ==
            WithoutPartial(c, text[cursor..start]) + Visible(c, text[end + |c.close|..])
    ensures Reasoning(c, text[cursor..]) ==
            text[start + |c.open|..end] + Reasoning(c, text[end + |c.close|..])
  {
    hide Find, WithoutPartial;
    ShapeAt(c, text, cursor, start, end);
    var rest := text[cursor..];
    assert rest[..start - cursor] == text[cursor..start];
    assert rest[start - cursor + |c.open|..end - cursor] == text[start + |c.open|..end];
    assert rest[end - cursor + |c.close|..] == text[end + |c.close|..];
  }

  /** The turn that ends the loop. */
  lemma LastTurn(c: Scanner, text: string, cursor: nat, start: int)
    requires cursor <= |text| && start == Find(c.lower, text, c.open, cursor)
    requires start >= 0 ==> Find(c.lower, text, c.close, start + |c.open|) < 0
    ensures Visible(c, text[cursor..]) ==
            if start < 0 then WithoutPartial(c, text[cursor..]) else WithoutPartial(c, text[cursor..start])
    ensures Reasoning(c, text[cursor..]) ==
            if start < 0 then "" else WithoutPartial(c, text[start + |c.open|..])
  {
    hide Find, WithoutPartial;
    ShapeAt(c, text, cursor, start, -1);
    if start >= 0 {
      var rest := text[cursor..];
      assert rest[..start - cursor] == text[cursor..start];
      assert rest[start - cursor + |c.open|..] == text[start + |c.open|..];
    }
  }

  /** The loop as the code runs it, over a cursor. */
  method SplitThink(c: Scanner, text: string) returns (visible: string, reasoning: string)
    ensures visible == Visible(c, text)
    ensures reasoning == Reasoning(c, text)
  {
    hide ShapeOf, Visible, Reasoning, Find, WithoutPartial;
    visible, reasoning := "", "";
    var cursor: nat := 0;
    var start := Find(c.lower, text, c.open, cursor);
    assert text[0..] == text;
    while start >= 0
      invariant 0 <= cursor <= |text|
      invariant start == Find(c.lower, text, c.open, cursor)
      invariant visible + Visible(c, text[cursor..]) == Visible(c, text)
      invariant reasoning + Reasoning(c, text[cursor..]) == Reasoning(c, text)
      decreases |text| - cursor
    {
      var end := Find(c.lower, text, c.close, start + |c.open|);
      var shown := WithoutPartial(c, text[cursor..start]);
      if end < 0 {
        LastTurn(c, text, cursor, start);
        return visible + shown, reasoning + WithoutPartial(c, text[start + |c.open|..]);
      }
      var inner := text[start + |c.open|..end];
      ClosedTurn(c, text, cursor, start, end);
      Regroup(visible, shown, Visible(c, text[end + |c.close|..]));
      Regroup(reasoning, inner, Reasoning(c, text[end + |c.close|..]));
      visible, reasoning := visible + shown, reasoning + inner;
      cursor := end + |c.close|;
      start := Find(c.lower, text, c.open, cursor);
    }
    LastTurn(c, text, cursor, start);
    visible := visible + WithoutPartial(c, text[cursor..]);
  }

  lemma Regroup(a: string, b: string, rest: string)
    ensures a + (b + rest) == a + b + rest
  {
  }

  /** A tag found in a prefix is found at the same place in the whole; one found only in the
      whole reaches beyond the prefix. */
  lemma FindInPrefix(lower: Lower, short: string, long: string, tag: string, from: nat)
    requires short <= long && from <= |short|
    ensures var a, b := Find(lower, short, tag, from), Find(lower, long, tag, from);
            && (a >= 0 ==> b == a)
            && (a < 0 && b >= 0 ==> b + |tag| > |short|)
  {
    FindIsFirst(lower, short, tag, from);
    FindIsFirst(lower, long, tag, from);
    var a, b := Find(lower, short, tag, from), Find(lower, long, tag, from);
    if a >= 0 {
      OccursInPrefix(lower, short, long, tag, a);
    }
    if b >= 0 && b + |tag| <= |short| {
      OccursInPrefix(lower, short, long, tag, b);
    }
  }

  lemma OccursInPrefix(lower: Lower, short: string, long: string, tag: string, k: nat)
    requires short <= long && k + |tag| <= |short|
    ensures Occurs(lower, short, tag, k) <==> Occurs(lower, long, tag, k)
  {
    assert short[k..k + |tag|] == long[k..k + |tag|];
  }

  lemma {:induction false} LastAngleIsLast(text: string)
    ensures var at := LastAngle(text);
            && (at >= 0 ==> text[at] == '<')
            && forall k | at < k < |text| :: text[k] != '<'
  {
    if text != "" && text[|text| - 1] != '<' {
      LastAngleIsLast(text[..|text| - 1]);
    }
  }

  lemma LastAngleUnique(text: string, at: int)
    requires -1 <= at < |text| && (at >= 0 ==> text[at] == '<')
    requires forall k | at < k < |text| :: text[k] != '<'
    ensures LastAngle(text) == at
  {
    LastAngleIsLast(text);
  }

  lemma BeginsShorter(lower: Lower, text: string, n: nat, tag: string)
    requires n <= |text|
    ensures Begins(lower, text, tag) ==> Begins(lower, text[..n], tag)
  {
    BeginsIsAgrees(lower, text, tag);
    BeginsIsAgrees(lower, text[..n], tag);
  }

  /** More text never takes back what was kept. */
  lemma KeptGrows(c: Scanner, text: string, more: string)
    ensures WithoutPartial(c, text) <= WithoutPartial(c, text + more)
  {
    var whole := text + more;
    var m, n := LastAngle(text), LastAngle(whole);
    LastAngleIsLast(whole);
    assert forall k | 0 <= k < |text| :: whole[k] == text[k];
    if n < |text| {
      LastAngleUnique(text, n);
      if n >= 0 && PartialTag(c, whole[n..]) {
        assert whole[n..][..|text| - n] == text[n..];
        BeginsShorter(c.lower, whole[n..], |text| - n, c.open);
        BeginsShorter(c.lower, whole[n..], |text| - n, c.close);
        assert whole[..n] == text[..n];
      }
    } else {
      assert whole[..n][..|text|] == text;
    }
  }

  /** A tag that straddles the end of a prefix is what `_without_partial_tag` cuts off. */
  lemma StraddleIsCut(c: Scanner, short: string, long: string, tag: string, at: nat)
    requires Proper(c) && short <= long && tag in {c.open, c.close}
    requires Occurs(c.lower, long, tag, at) && at < |short| < at + |tag|
    ensures LastAngle(short) == at && Begins(c.lower, short[at..], tag)
    ensures WithoutPartial(c, short) == short[..at]
  {
    StraddleTail(c, short, long, tag, at);
    LastAngleUnique(short, at);
  }

  lemma StraddleTail(c: Scanner, short: string, long: string, tag: string, at: nat)
    requires Proper(c) && short <= long && IsTag(tag)
    requires Occurs(c.lower, long, tag, at) && at < |short| < at + |tag|
    ensures Begins(c.lower, short[at..], tag)
    ensures short[at] == '<' && forall k | at < k < |short| :: short[k] != '<'
  {
    hide Begins, IsTag, Proper;
    var piece, tail := long[at..at + |tag|], short[at..];
    assert tail == piece[..|tail|];
    BeginsShorter(c.lower, piece, |tail|, tag);
    OneAngle(c, tail, tag);
    assert short[at] == tail[0];
    assert forall k | at < k < |short| :: short[k] == tail[k - at];
  }

  /** Text that agrees with a tag has its only angle bracket at the front. */
  lemma OneAngle(c: Scanner, text: string, tag: string)
    requires Proper(c) && IsTag(tag) && text != "" && Begins(c.lower, text, tag)
    ensures text[0] == '<' && forall k | 1 <= k < |text| :: text[k] != '<'
  {
    BeginsIsAgrees(c.lower, text, tag);
    assert forall k | 1 <= k < |tag| :: tag[k] in tag[1..];
    assert forall k | 1 <= k < |text| :: c.lower(text[k]) == tag[k];
  }

  /** How the first block of a text looks once more text has arrived: a closed block stays as it
      is, an open one stays where it is. */
  ghost predicate ShapeGrows(shape: Shape, longer: Shape) {
    match shape
    case Outside => true
    case Unclosed(start) => !longer.Outside? && longer.start == start
    case Closed(_, _) => longer == shape
  }

  lemma ShapeOfExtension(c: Scanner, text: string, more: string)
    ensures ShapeGrows(ShapeOf(c, text), ShapeOf(c, text + more))
  {
    FindInPrefix(c.lower, text, text + more, c.open, 0);
    var start := Find(c.lower, text, c.open, 0);
    if start >= 0 {
      FindInPrefix(c.lower, text, text + more, c.close, start + |c.open|);
    }
  }

  /** Behind a closed block, an extension extends the rest. */
  lemma ClosedExtension(c: Scanner, text: string, more: string)
    ensures var shape := ShapeOf(c, text);
            shape.Closed? ==>
              && Visible(c, text + more) ==
                 WithoutPartial(c, text[..shape.start]) + Visible(c, text[shape.end + |c.close|..] + more)
              && Reasoning(c, text + more) ==
                 text[shape.start + |c.open|..shape.end] + Reasoning(c, text[shape.end + |c.close|..] + more)
  {
    hide Find, WithoutPartial, ShapeOf;
    ShapeOfExtension(c, text, more);
    var shape := ShapeOf(c, text);
    if shape.Closed? {
      var whole, from := text + more, shape.end + |c.close|;
      assert whole[..shape.start] == text[..shape.start];
      assert whole[shape.start + |c.open|..shape.end] == text[shape.start + |c.open|..shape.end];
      assert whole[from..] == text[from..] + more;
    }
  }

  /** Streaming monotonicity of the reasoning half. */
  lemma {:induction false} ReasoningGrows(c: Scanner, text: string, more: string)
    requires Proper(c)
    ensures Reasoning(c, text) <= Reasoning(c, text + more)
    decreases |text|
  {
    hide Find, WithoutPartial, ShapeOf, Visible, Reasoning;
    var shape := ShapeOf(c, text);
    ReasoningOf(c, text);
    match shape
    case Outside =>
    case Unclosed(start) => UnclosedGrows(c, text, more, start);
    case Closed(_, end) =>
      ClosedExtension(c, text, more);
      ReasoningGrows(c, text[end + |c.close|..], more);
  }

  lemma ReasoningOf(c: Scanner, text: string)
    ensures match ShapeOf(c, text)
            case Outside => Reasoning(c, text) == ""
            case Unclosed(_) => true
            case Closed(start, end) =>
              Reasoning(c, text) == text[start + |c.open|..end] + Reasoning(c, text[end + |c.close|..])
  {
    hide Find, WithoutPartial, ShapeOf, Visible;
  }

  lemma UnclosedGrows(c: Scanner, text: string, more: string, start: nat)
    requires Proper(c) && ShapeOf(c, text) == Unclosed(start)
    ensures Reasoning(c, text) <= Reasoning(c, text + more)
  {
    hide WithoutPartial, Find;
    var whole, from := text + more, start + |c.open|;
    var longer := ShapeOf(c, whole);
    ShapeOfExtension(c, text, more);
    FindShift(c.lower, text, c.close, from, 0);
    FindShift(c.lower, whole, c.close, from, 0);
    OpenBodyGrows(c, text[from..], whole[from..]);
    if longer.Closed? {
      assert whole[from..][..longer.end - from] == whole[from..longer.end];
    }
  }

  lemma OpenBodyGrows(c: Scanner, body: string, longBody: string)
    requires Proper(c) && body <= longBody && Find(c.lower, body, c.close, 0) < 0
    ensures var longEnd := Find(c.lower, longBody, c.close, 0);
            WithoutPartial(c, body) <=
            if longEnd < 0 then WithoutPartial(c, longBody) else longBody[..longEnd]
  {
    var longEnd := Find(c.lower, longBody, c.close, 0);
    FindIsFirst(c.lower, longBody, c.close, 0);
    FindInPrefix(c.lower, body, longBody, c.close, 0);
    if longEnd < 0 {
      assert longBody == body + longBody[|body|..];
      KeptGrows(c, body, longBody[|body|..]);
    } else if longEnd < |body| {
      StraddleIsCut(c, body, longBody, c.close, longEnd);
      assert body[..longEnd] == longBody[..longEnd];
    } else {
      assert longBody[..longEnd][..|body|] == body;
    }
  }

  /** The text ends outside the tags with the beginning of an opening tag, and what comes
      before that beginning itself ends in a partial tag. */
  predicate Shrinks(c: Scanner, text: string)
    decreases |text|
  {
    match ShapeOf(c, text)
    case Outside => EndsTwice(c, text)
    case Unclosed(_) => false
    case Closed(_, end) => Shrinks(c, text[end + |c.close|..])
  }

  predicate EndsTwice(c: Scanner, text: string) {
    var marker := LastAngle(text);
    && marker >= 0 && |text| - marker < |c.open| && Begins(c.lower, text[marker..], c.open)
    && WithoutPartial(c, text[..marker]) != text[..marker]
  }

  ghost predicate VisibleStable(c: Scanner, text: string) {
    forall more: string :: Visible(c, text) <= Visible(c, text + more)
  }

  /** The visible half of a text never shrinks, whatever follows, exactly when the text does
      not end in that way. */
  lemma VisibleGrowsIff(c: Scanner, text: string)
    requires Proper(c) && FixesTags(c)
    ensures VisibleStable(c, text) <==> !Shrinks(c, text)
  {
    if Shrinks(c, text) {
      var more := ShrinkingSuffix(c, text);
    } else {
      forall more: string
        ensures Visible(c, text) <= Visible(c, text + more)
      {
        VisibleGrows(c, text, more);
      }
    }
  }

  lemma {:induction false} VisibleGrows(c: Scanner, text: string, more: string)
    requires Proper(c) && !Shrinks(c, text)
    ensures Visible(c, text) <= Visible(c, text + more)
    decreases |text|
  {
    hide Find, WithoutPartial, ShapeOf, EndsTwice;
    var shape := ShapeOf(c, text);
    match shape
    case Outside => OutsideGrows(c, text, text + more);
    case Unclosed(start) =>
      ShapeOfExtension(c, text, more);
      assert (text + more)[..start] == text[..start];
    case Closed(_, end) =>
      ClosedExtension(c, text, more);
      VisibleGrows(c, text[end + |c.close|..], more);
  }

  lemma OutsideGrows(c: Scanner, short: string, long: string)
    requires Proper(c) && short <= long && !EndsTwice(c, short) && ShapeOf(c, short).Outside?
    ensures Visible(c, short) <= Visible(c, long)
  {
    hide Find, WithoutPartial, EndsTwice, Proper;
    FindInPrefix(c.lower, short, long, c.open, 0);
    var start := Find(c.lower, long, c.open, 0);
    if start < 0 {
      assert long == short + long[|short|..];
      KeptGrows(c, short, long[|short|..]);
    } else {
      BeforeTagGrows(c, short, long, start);
    }
  }

  lemma BeforeTagGrows(c: Scanner, short: string, long: string, start: nat)
    requires Proper(c) && short <= long && !EndsTwice(c, short)
    requires start == Find(c.lower, long, c.open, 0) && |short| < start + |c.open|
    ensures WithoutPartial(c, short) <= WithoutPartial(c, long[..start])
  {
    FindIsFirst(c.lower, long, c.open, 0);
    if start < |short| {
      StraddleIsCut(c, short, long, c.open, start);
      assert short[..start] == long[..start];
    } else {
      assert long[..start] == short + long[|short|..start];
      KeptGrows(c, short, long[|short|..start]);
    }
  }

  /** Completing the opening tag shrinks the visible half. */
  lemma {:induction false} ShrinkingSuffix(c: Scanner, text: string) returns (more: string)
    requires Proper(c) && FixesTags(c) && Shrinks(c, text)
    ensures !(Visible(c, text) <= Visible(c, text + more))
    decreases |text|
  {
    hide Find, WithoutPartial, ShapeOf, EndsTwice, Proper, FixesTags;
    var shape := ShapeOf(c, text);
    if shape.Outside? {
      more := CompletedTag(c, text);
    } else {
      var rest := text[shape.end + |c.close|..];
      more := ShrinkingSuffix(c, rest);
      ClosedExtension(c, text, more);
      PrefixCancels(WithoutPartial(c, text[..shape.start]), Visible(c, rest), Visible(c, rest + more));
    }
  }

  lemma PrefixCancels(head: string, a: string, b: string)
    ensures head + a <= head + b ==> a <= b
  {
    if head + a <= head + b {
      assert a == (head + a)[|head|..] && b == (head + b)[|head|..];
      assert forall k | 0 <= k < |a| :: a[k] == (head + a)[|head| + k] == (head + b)[|head| + k] == b[k];
    }
  }

  lemma CompletedTag(c: Scanner, text: string) returns (more: string)
    requires Proper(c) && FixesTags(c)
    requires EndsTwice(c, text) && ShapeOf(c, text).Outside?
    ensures !(Visible(c, text) <= Visible(c, text + more))
  {
    var marker := LastAngle(text);
    var tail := text[marker..];
    more := c.open[|tail|..];
    var longer := text + more;
    var piece := tail + c.open[|tail|..];
    assert longer[marker..marker + |c.open|] == piece;
    BeginsIsAgrees(c.lower, tail, c.open);
    BeginsIsAgrees(c.lower, piece, c.open);
    assert forall k | 0 <= k < |tail| :: piece[k] == tail[k];
    assert forall k | |tail| <= k < |c.open| :: piece[k] == c.open[k];
    assert Occurs(c.lower, longer, c.open, marker);
    forall k: nat | k < marker
      ensures !Occurs(c.lower, longer, c.open, k)
    {
      NoEarlierTag(c, text, longer, k, marker);
    }
    FindUnique(c.lower, longer, c.open, 0, marker);
    assert longer[marker + |c.open|..] == "";
    assert longer[..marker] == text[..marker];
    NoTagInNothing(c);
  }

  lemma NoTagInNothing(c: Scanner)
    ensures Find(c.lower, "", c.close, 0) == -1
  {
  }

  lemma NoEarlierTag(c: Scanner, text: string, longer: string, k: nat, marker: nat)
    requires Proper(c) && text <= longer && k < marker < |text| && text[marker] == '<'
    requires Find(c.lower, text, c.open, 0) < 0
    ensures !Occurs(c.lower, longer, c.open, k)
  {
    hide Find, Begins;
    if k + |c.open| <= marker {
      OccursInPrefix(c.lower, text, longer, c.open, k);
      FindIsFirst(c.lower, text, c.open, 0);
      assert !Occurs(c.lower, text, c.open, k);
    } else if k + |c.open| <= |longer| {
      var piece := longer[k..k + |c.open|];
      BeginsIsAgrees(c.lower, piece, c.open);
      assert c.lower(piece[marker - k]) == '<';
      assert forall i | 1 <= i < |c.open| :: c.open[i] in c.open[1..];
      assert c.open[marker - k] != '<';
      assert !Begins(c.lower, piece, c.open);
    }
  }

  /** For instance, after "x<<" the visible half is "x<", and after "x<<think>" it is "x". */
  lemma VisibleCanShrink(lower: Lower)
    requires Proper(ThinkTags(lower)) && FixesTags(ThinkTags(lower))
    ensures !VisibleStable(ThinkTags(lower), "x<<")
  {
    var c := ThinkTags(lower);
    var text := "x<<";
    assert c.open[0] == '<';
    assert LastAngle(text) == 2 && text[2..] == "<" && text[..2] == "x<";
    assert LastAngle("x<") == 1 && "x<"[1..] == "<" && "x<"[..1] == "x";
    assert Begins(lower, "<", c.open);
    assert WithoutPartial(c, "x<") == "x";
    assert EndsTwice(c, text);
    assert Find(lower, text, c.open, 0) == -1;
    VisibleGrowsIff(c, text);
  }
}
