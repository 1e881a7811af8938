/**
  How much of the messages the text of a cache key determines. The text joins
  "role:content" by line breaks, so a content may hold what looks like the border
  between two messages, and names are left out altogether.
 */
module Transcripts {
  import opened Domain
  import opened Cache

  const ROLES: set<string> := {"system", "developer", "user", "assistant", "tool"}

  predicate ValidMessage(m: Message) { m.role in ROLES && m.content != "" }

  ghost predicate ValidMessages(ms: seq<Message>) { forall i :: 0 <= i < |ms| ==> ValidMessage(ms[i]) }

  /** What the text shows of a message. */
  datatype Line = Line(role: string, content: string)

  function Lines(ms: seq<Message>): (lines: seq<Line>)
    ensures |lines| == |ms|
    ensures forall i :: 0 <= i < |ms| ==> lines[i] == Line(ms[i].role, ms[i].content)
  {
    seq(|ms|, i requires 0 <= i < |ms| => Line(ms[i].role, ms[i].content))
  }

  function Border(role: string): string { "\n" + role + ":" }

  predicate BorderAt(content: string, k: nat, role: string) {
    k + |Border(role)| <= |content| && content[k..k + |Border(role)|] == Border(role)
  }

  /** The content holds what looks like the border before a message. */
  ghost predicate HasBorder(content: string) {
    exists k: nat, role :: role in ROLES && BorderAt(content, k, role)
  }

  ghost predicate Clean(ms: seq<Message>) { forall i :: 0 <= i < |ms| ==> !HasBorder(ms[i].content) }

  /** The content holds a border with text on both sides. */
  ghost predicate Splits(content: string) {
    exists k: nat, role :: role in ROLES && BorderAt(content, k, role) && 0 < k && k + |Border(role)| < |content|
  }

  // -------------------------------------------------------------------------
  // Reading a text

  /** The text after the first content. */
  function Rest(ms: seq<Message>): string
    requires ms != []
  {
    if |ms| == 1 then "" else "\n" + Transcript(ms[1..])
  }

  lemma TextOfFirst(ms: seq<Message>)
    requires ms != []
    ensures Transcript(ms) == ms[0].role + ":" + (ms[0].content + Rest(ms))
  {}

  lemma RestStartsWithBorder(ms: seq<Message>)
    requires |ms| >= 2
    ensures Rest(ms) == Border(ms[1].role) + (ms[1].content + Rest(ms[1..]))
  {
    TextOfFirst(ms[1..]);
    assert ms[1..][0] == ms[1];
  }

  /** The five roles have different initials, so a text shows its first role. */
  lemma FirstRoleIsShown(r: string, s: string, x: string, y: string)
    requires r in ROLES && s in ROLES && r + ":" + x == s + ":" + y
    ensures r == s && x == y
  {
    assert r[0] == (r + ":" + x)[0] && s[0] == (s + ":" + y)[0];
    assert x == (r + ":" + x)[|r| + 1..] && y == (s + ":" + y)[|s| + 1..];
  }

  lemma SameTextSameFirst(a: seq<Message>, b: seq<Message>)
    requires ValidMessages(a) && ValidMessages(b) && a != [] && b != [] && Transcript(a) == Transcript(b)
    ensures a[0].role == b[0].role && a[0].content + Rest(a) == b[0].content + Rest(b)
  {
    TextOfFirst(a);
    TextOfFirst(b);
    hide Transcript;
    hide Rest;
    FirstRoleIsShown(a[0].role, b[0].role, a[0].content + Rest(a), b[0].content + Rest(b));
  }

  lemma RolesHaveNoBreak(role: string)
    requires role in ROLES
    ensures forall k :: 0 < k < |Border(role)| ==> Border(role)[k] != '\n'
  {}

  /** Of two ways to cut a text, the longer first part covers the whole border after the shorter one. */
  lemma BorderIsCovered(x: string, border: string, tail: string, y: string, rest: string)
    requires x + (border + tail) == y + rest && |x| < |y| && tail != ""
    requires forall k :: 0 < k < |border| ==> border[k] != '\n'
    requires rest == "" || rest[0] == '\n'
    ensures |x| + |border| <= |y| && y[|x|..|x| + |border|] == border
    ensures rest == "" ==> |x| + |border| < |y|
  {
    var text, end := y + rest, |x| + |border|;
    assert text == x + border + tail;
    assert text[|x|..end] == border;
    assert forall i :: 0 <= i < |border| ==> text[|x| + i] == border[i];
    assert forall i :: 0 <= i < |rest| ==> text[|y| + i] == rest[i];
    if |y| < end {
      assert false;
    }
    assert y[|x|..end] == text[|x|..end];
  }

  lemma RestStartsWithBreak(ms: seq<Message>)
    requires ms != []
    ensures Rest(ms) == "" || Rest(ms)[0] == '\n'
    ensures |ms| == 1 ==> Rest(ms) == ""
  {}

  /** A text that starts with a shorter first content has a second message. */
  lemma ShorterContentIsFollowed(a: seq<Message>, content: string, rest: string)
    requires a != [] && a[0].content + Rest(a) == content + rest && |a[0].content| < |content|
    ensures |a| >= 2
  {
    assert |a[0].content + Rest(a)| == |content + rest|;
  }

  /** Of two readings of one text, the longer first content holds the border after the shorter one. */
  lemma LongerContentHoldsBorder(a: seq<Message>, b: seq<Message>)
    requires ValidMessages(a) && ValidMessages(b) && a != [] && b != []
    requires a[0].content + Rest(a) == b[0].content + Rest(b)
    requires |a[0].content| < |b[0].content|
    ensures |a| >= 2 && BorderAt(b[0].content, |a[0].content|, a[1].role)
    ensures |b| == 1 ==> |a[0].content| + |Border(a[1].role)| < |b[0].content|
  {
    ShorterContentIsFollowed(a, b[0].content, Rest(b));
    RestStartsWithBorder(a);
    RestStartsWithBreak(b);
    RolesHaveNoBreak(a[1].role);
    hide Rest;
    hide Border;
    BorderIsCovered(a[0].content, Border(a[1].role), a[1].content + Rest(a[1..]), b[0].content, Rest(b));
  }

  // -------------------------------------------------------------------------
  // What a text determines

  /** The text depends on roles and contents only: names do not show. */
  lemma {:induction false} SameLinesSameText(a: seq<Message>, b: seq<Message>)
    requires Lines(a) == Lines(b)
    ensures Transcript(a) == Transcript(b)
  {
    assert |a| == |Lines(a)| && |b| == |Lines(b)|;
    if a != [] {
      assert Lines(a)[0] == Lines(b)[0];
      forall i | 0 <= i < |a| - 1 ensures Lines(a[1..])[i] == Lines(b[1..])[i] {
        assert Lines(a)[i + 1] == Lines(b)[i + 1];
      }
      SameLinesSameText(a[1..], b[1..]);
    }
  }

  /**
    Among messages without borders in their contents, two lists have one text
    exactly when they have the same roles and contents, whatever their names.
   */
  lemma {:induction false} CleanTextsShowTheirLines(a: seq<Message>, b: seq<Message>)
    requires ValidMessages(a) && ValidMessages(b) && Clean(a) && Clean(b)
    ensures Transcript(a) == Transcript(b) <==> Lines(a) == Lines(b)
    decreases |a|
  {
    if Lines(a) == Lines(b) {
      SameLinesSameText(a, b);
    }
    if Transcript(a) == Transcript(b) {
      if a == [] || b == [] {
        EmptyTextIsEmpty(a, b);
      } else {
        FirstMessageIsShown(a, b);
        assert ValidMessages(a[1..]) && ValidMessages(b[1..]) && Clean(a[1..]) && Clean(b[1..]);
        CleanTextsShowTheirLines(a[1..], b[1..]);
        assert Lines(a) == [Line(a[0].role, a[0].content)] + Lines(a[1..]);
        assert Lines(b) == [Line(b[0].role, b[0].content)] + Lines(b[1..]);
      }
    }
  }

  lemma EmptyTextIsEmpty(a: seq<Message>, b: seq<Message>)
    requires Transcript(a) == Transcript(b) && (a == [] || b == [])
    ensures a == [] && b == []
  {
    if a != [] { TextOfFirst(a); }
    if b != [] { TextOfFirst(b); }
  }

  lemma FirstMessageIsShown(a: seq<Message>, b: seq<Message>)
    requires ValidMessages(a) && ValidMessages(b) && Clean(a) && Clean(b) && a != [] && b != []
    requires Transcript(a) == Transcript(b)
    ensures a[0].role == b[0].role && a[0].content == b[0].content
    ensures Transcript(a[1..]) == Transcript(b[1..])
  {
    SameTextSameFirst(a, b);
    hide Transcript;
    hide ValidMessage;
    if |a[0].content| < |b[0].content| {
      LongerContentHoldsBorder(a, b);
      assert false;
    }
    if |b[0].content| < |a[0].content| {
      LongerContentHoldsBorder(b, a);
      assert false;
    }
    SameLengthSameParts(a[0].content, Rest(a), b[0].content, Rest(b));
    SameRestSameText(a, b);
  }

  lemma SameLengthSameParts(a: string, x: string, b: string, y: string)
    requires a + x == b + y && |a| == |b|
    ensures a == b && x == y
  {
    assert a == (a + x)[..|a|] && x == (a + x)[|a|..];
    assert b == (b + y)[..|b|] && y == (b + y)[|b|..];
  }

  lemma SameRestSameText(a: seq<Message>, b: seq<Message>)
    requires a != [] && b != [] && Rest(a) == Rest(b)
    ensures Transcript(a[1..]) == Transcript(b[1..])
  {
    if |a| >= 2 { assert Rest(a)[1..] == Transcript(a[1..]); }
    if |b| >= 2 { assert Rest(b)[1..] == Transcript(b[1..]); }
  }

  lemma TextOfMore(m: Message, ms: seq<Message>)
    ensures Transcript([m] + ms) == m.role + ":" + (m.content + if ms == [] then "" else "\n" + Transcript(ms))
  {
    TextOfFirst([m] + ms);
    assert ([m] + ms)[1..] == ms;
  }

  lemma SplittingTheFirst(m: Message, first: Message, second: Message, after: seq<Message>)
    requires first.role == m.role && m.content == first.content + Border(second.role) + second.content
    ensures Transcript([m] + after) == Transcript([first] + ([second] + after))
  {
    hide Transcript;
    TextOfMore(m, after);
    TextOfMore(second, after);
    TextOfMore(first, [second] + after);
    var rest := if after == [] then "" else "\n" + Transcript(after);
    assert "\n" + (second.role + ":" + (second.content + rest)) == Border(second.role) + second.content + rest;
    assert first.content + (Border(second.role) + second.content + rest) == m.content + rest;
  }

  /** A content that holds a border has the text of the two messages it looks like, wherever it stands. */
  lemma {:induction false} SplittingKeepsTheText(
    before: seq<Message>, m: Message, first: Message, second: Message, after: seq<Message>)
    requires first.role == m.role && m.content == first.content + Border(second.role) + second.content
    ensures Transcript(before + [m] + after) == Transcript(before + [first, second] + after)
  {
    hide Transcript;
    if before == [] {
      assert before + [m] + after == [m] + after;
      assert before + [first, second] + after == [first] + ([second] + after);
      SplittingTheFirst(m, first, second, after);
    } else {
      var x, rest := before[0], before[1..];
      SplittingKeepsTheText(rest, m, first, second, after);
      assert before + [m] + after == [x] + (rest + [m] + after);
      assert before + [first, second] + after == [x] + (rest + [first, second] + after);
      TextOfMore(x, rest + [m] + after);
      TextOfMore(x, rest + [first, second] + after);
    }
  }

  /** No other roles and contents have the text of these messages. */
  ghost predicate Determined(ms: seq<Message>) {
    forall other :: ValidMessages(other) && Transcript(other) == Transcript(ms) ==> Lines(other) == Lines(ms)
  }

  /**
    The exact condition: the text of valid messages determines their roles and
    contents exactly when there is at most one message, and its content does not
    hold a border with text on both sides.
   */
  lemma DeterminedIff(ms: seq<Message>)
    requires ValidMessages(ms)
    ensures Determined(ms) <==> |ms| <= 1 && (forall m :: m in ms ==> !Splits(m.content))
  {
    if |ms| >= 2 {
      MergedMessagesCollide(ms);
    } else if |ms| == 1 && Splits(ms[0].content) {
      SplitMessagesCollide(ms[0]);
      assert ms == [ms[0]];
    } else {
      forall other | ValidMessages(other) && Transcript(other) == Transcript(ms) ensures Lines(other) == Lines(ms) {
        SingleMessageIsShown(ms, other);
      }
    }
  }

  lemma MergedMessagesCollide(ms: seq<Message>)
    requires ValidMessages(ms) && |ms| >= 2
    ensures !Determined(ms)
  {
    var merged := Message(ms[0].role, ms[0].content + Border(ms[1].role) + ms[1].content, None);
    SplittingKeepsTheText([], merged, ms[0], ms[1], ms[2..]);
    var other := [] + [merged] + ms[2..];
    assert [] + [ms[0], ms[1]] + ms[2..] == ms;
    assert ValidMessages(other) && |Lines(other)| != |Lines(ms)|;
  }

  lemma SplitMessagesCollide(m: Message)
    requires ValidMessage(m) && Splits(m.content)
    ensures !Determined([m])
  {
    var k: nat, role :| role in ROLES && BorderAt(m.content, k, role) && 0 < k && k + |Border(role)| < |m.content|;
    var end := k + |Border(role)|;
    var first, second := Message(m.role, m.content[..k], None), Message(role, m.content[end..], None);
    assert m.content == m.content[..k] + m.content[k..end] + m.content[end..];
    SplittingKeepsTheText([], m, first, second, []);
    assert [] + [m] + [] == [m];
    var other := [] + [first, second] + [];
    assert ValidMessages(other) && |Lines(other)| != |Lines([m])|;
  }

  lemma LongerReadingSplits(m: Message, other: seq<Message>)
    requires ValidMessage(m) && ValidMessages(other) && |other| >= 2 && Transcript(other) == Transcript([m])
    ensures Splits(m.content)
  {
    SameTextSameFirst([m], other);
    hide Transcript;
    assert other[0].content != "" && other[1].role in ROLES;
    RestStartsWithBorder(other);
    assert |m.content| == |m.content + Rest([m])| == |other[0].content + Rest(other)|;
    LongerContentHoldsBorder(other, [m]);
    hide ValidMessage;
    hide BorderAt;
    SplitsThere(m.content, |other[0].content|, other[1].role);
  }

  lemma SplitsThere(content: string, k: nat, role: string)
    requires role in ROLES && BorderAt(content, k, role) && 0 < k && k + |Border(role)| < |content|
    ensures Splits(content)
  {}

  lemma SingleMessageIsShown(ms: seq<Message>, other: seq<Message>)
    requires ValidMessages(ms) && ValidMessages(other) && |ms| <= 1 && (forall m :: m in ms ==> !Splits(m.content))
    requires Transcript(other) == Transcript(ms)
    ensures Lines(other) == Lines(ms)
  {
    hide Splits;
    hide ValidMessage;
    hide Transcript;
    if ms == [] || other == [] {
      EmptyTextIsEmpty(ms, other);
    } else if |other| >= 2 {
      assert ms == [ms[0]] && ms[0] in ms;
      LongerReadingSplits(ms[0], other);
      assert false;
    } else {
      SameTextSameFirst(ms, other);
      SameLengthSameParts(ms[0].content, Rest(ms), other[0].content, Rest(other));
    }
  }

  /** Two lists of one text: a border inside a content, and names that differ. */
  lemma TranscriptIsNotInjective()
    ensures
      var one := [Message("user", "a\nuser:b", None)];
      var two := [Message("user", "a", None), Message("user", "b", None)];
      one != two && Transcript(one) == Transcript(two)
    ensures
      var plain, named := [Message("user", "a", None)], [Message("user", "a", Some("c"))];
      plain != named && Transcript(plain) == Transcript(named)
  {
    var m, first, second := Message("user", "a\nuser:b", None), Message("user", "a", None), Message("user", "b", None);
    SplittingKeepsTheText([], m, first, second, []);
    assert [] + [m] + [] == [m] && [] + [first, second] + [] == [first, second];
    SameLinesSameText([Message("user", "a", None)], [Message("user", "a", Some("c"))]);
  }
}
