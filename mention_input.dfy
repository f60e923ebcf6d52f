/** The comment box with mention autocompletion: the display parser that splits a
    stored comment into text and `@name[id]` mentions, the trigger that opens the
    member dropdown while an `@word` is being typed, the member filter, the keyboard
    handling of the dropdown and the insertion of the chosen member. */
module MentionInput {
  import opened Common
  import opened Mentions
  import Initials

  // ----- parseForDisplay -----

  datatype DisplayPart = TextPart(content: string) | MentionPart(content: string, userId: string)

  /** The text part for the stretch `s[last..end]`, or nothing when it is empty. */
  function TextBetween(s: string, last: nat, end: nat): seq<DisplayPart>
    requires last <= end <= |s|
  {
    if end > last then [TextPart(s[last..end])] else []
  }

  /** The parts still to be emitted when the text so far ends at `last` and the
      global search for `@name[id]` resumes at `pos`. No fallback part is added: an
      empty comment has no parts. */
  function DisplayFrom(s: string, last: nat, pos: nat): seq<DisplayPart>
    requires last <= pos <= |s|
    decreases |s| - pos
  {
    if pos == |s| then TextBetween(s, last, |s|)
    else
      match BracketedAt(s, pos, WithIdNameChar)
      case Some(b) =>
        TextBetween(s, last, b.start) + [MentionPart(NameOf(s, b), IdOf(s, b))] + DisplayFrom(s, b.end, b.end)
      case None => DisplayFrom(s, last, pos + 1)
  }

  function DisplayParts(s: string): seq<DisplayPart> {
    DisplayFrom(s, 0, 0)
  }

  /** The loop of the display parser. */
  method ParseForDisplay(content: string) returns (parts: seq<DisplayPart>)
    ensures parts == DisplayParts(content)
  {
    parts := [];
    var lastIndex: nat := 0;
    var pos: nat := 0;
    AppendEmpty(DisplayParts(content));
    while pos < |content|
      invariant lastIndex <= pos <= |content|
      invariant parts + DisplayFrom(content, lastIndex, pos) == DisplayParts(content)
      decreases |content| - pos
    {
      DisplayStep(content, lastIndex, pos, parts);
      match BracketedAt(content, pos, WithIdNameChar) {
        case Some(b) =>
          if b.start > lastIndex {
            parts := parts + [TextPart(content[lastIndex..b.start])];
          } else {
            AppendEmpty(parts);
          }
          parts := parts + [MentionPart(NameOf(content, b), IdOf(content, b))];
          lastIndex := b.end;
          pos := b.end;
        case None =>
          pos := pos + 1;
      }
    }
    assert DisplayFrom(content, lastIndex, pos) == TextBetween(content, lastIndex, |content|);
    if lastIndex < |content| {
      assert content[lastIndex..] == content[lastIndex..|content|];
      parts := parts + [TextPart(content[lastIndex..])];
    } else {
      AppendEmpty(parts);
    }
  }

  /** One round of the parser's loop, in terms of `DisplayFrom`. */
  lemma DisplayStep(s: string, last: nat, pos: nat, acc: seq<DisplayPart>)
    requires last <= pos < |s|
    requires acc + DisplayFrom(s, last, pos) == DisplayParts(s)
    ensures match BracketedAt(s, pos, WithIdNameChar)
      case Some(b) =>
        && last <= b.start && b.start < b.nameEnd && b.nameEnd + 1 < b.end <= |s| && pos < b.end
        && acc + TextBetween(s, last, b.start) + [MentionPart(NameOf(s, b), IdOf(s, b))]
             + DisplayFrom(s, b.end, b.end) == DisplayParts(s)
      case None => acc + DisplayFrom(s, last, pos + 1) == DisplayParts(s)
  {
    match BracketedAt(s, pos, WithIdNameChar)
    case Some(b) =>
      var t := TextBetween(s, last, b.start);
      var m := [MentionPart(NameOf(s, b), IdOf(s, b))];
      var r := DisplayFrom(s, b.end, b.end);
      AppendAssoc(acc, t + m, r);
      AppendAssoc(acc, t, m);
    case None =>
  }

  /** A part written back the way the editor serialises it. */
  function PartText(p: DisplayPart): string {
    match p
    case TextPart(c) => c
    case MentionPart(c, id) => "@" + c + "[" + id + "]"
  }

  function Serialize(parts: seq<DisplayPart>): string {
    if parts == [] then "" else PartText(parts[0]) + Serialize(parts[1..])
  }

  lemma {:induction false} SerializeAppend(a: seq<DisplayPart>, b: seq<DisplayPart>)
    ensures Serialize(a + b) == Serialize(a) + Serialize(b)
  {
    if a != [] {
      assert (a + b)[1..] == a[1..] + b;
      SerializeAppend(a[1..], b);
      AppendAssoc(PartText(a[0]), Serialize(a[1..]), Serialize(b));
    } else {
      assert a + b == b;
    }
  }

  lemma SliceSplit<T>(s: seq<T>, a: nat, b: nat, c: nat)
    requires a <= b <= c <= |s|
    ensures s[a..c] == s[a..b] + s[b..c]
  {
  }

  /** Re-serialising the groups of a match gives the matched text. */
  lemma MatchText(s: string, b: Bracketed)
    requires b.start < b.nameEnd && b.nameEnd + 1 < b.end <= |s|
    requires s[b.start] == '@' && s[b.nameEnd] == '[' && s[b.end - 1] == ']'
    ensures PartText(MentionPart(NameOf(s, b), IdOf(s, b))) == s[b.start..b.end]
  {
    var n, i := NameOf(s, b), IdOf(s, b);
    assert n == s[b.start + 1..b.nameEnd] && i == s[b.nameEnd + 1..b.end - 1];
    assert PartText(MentionPart(n, i)) == "@" + n + "[" + i + "]";
    MatchPieces(s, b.start, b.nameEnd, b.end);
  }

  /** `@`, the name, `[`, the id and `]` laid end to end are the slice they came from. */
  lemma MatchPieces(s: string, a: nat, q: nat, end: nat)
    requires a < q && q + 1 < end <= |s| && s[a] == '@' && s[q] == '[' && s[end - 1] == ']'
    ensures "@" + s[a + 1..q] + "[" + s[q + 1..end - 1] + "]" == s[a..end]
  {
    var e := end - 1;
    var n, i := s[a + 1..q], s[q + 1..e];
    assert s[a..a + 1] == "@" && s[q..q + 1] == "[" && s[e..end] == "]";
    SliceSplit(s, q + 1, e, end);
    assert s[q + 1..end] == i + "]";
    SliceSplit(s, q, q + 1, end);
    assert s[q..end] == "[" + (i + "]");
    SliceSplit(s, a + 1, q, end);
    assert s[a + 1..end] == n + ("[" + (i + "]"));
    SliceSplit(s, a, a + 1, end);
    assert s[a..end] == "@" + (n + ("[" + (i + "]")));
    RightNested("@", n, "[", i, "]");
  }

  lemma RightNested<T>(x1: seq<T>, x2: seq<T>, x3: seq<T>, x4: seq<T>, x5: seq<T>)
    ensures x1 + x2 + x3 + x4 + x5 == x1 + (x2 + (x3 + (x4 + x5)))
  {
    AppendAssoc(x1 + x2 + x3, x4, x5);
    AppendAssoc(x1 + x2, x3, x4 + x5);
    AppendAssoc(x1, x2, x3 + (x4 + x5));
  }

  lemma {:induction false} DisplayFromText(s: string, last: nat, pos: nat)
    requires last <= pos <= |s|
    ensures Serialize(DisplayFrom(s, last, pos)) == s[last..]
    decreases |s| - pos
  {
    if pos == |s| {
      TextBetweenText(s, last, |s|);
      assert s[last..|s|] == s[last..];
    } else {
      match BracketedAt(s, pos, WithIdNameChar)
      case Some(b) =>
        DisplayFromText(s, b.end, b.end);
        MentionStepText(s, last, b);
      case None =>
        DisplayFromText(s, last, pos + 1);
    }
  }

  /** The text part of a stretch writes back as that stretch. */
  lemma TextBetweenText(s: string, last: nat, end: nat)
    requires last <= end <= |s|
    ensures Serialize(TextBetween(s, last, end)) == s[last..end]
  {
    if end > last {
      assert Serialize([TextPart(s[last..end])]) == s[last..end] + "";
    }
  }

  /** The text before a match, the match and what follows write back as the slice
      from the text's start on. */
  lemma MentionStepText(s: string, last: nat, b: Bracketed)
    requires last <= b.start && ValidBracketed(s, b, WithIdNameChar)
    requires Serialize(DisplayFrom(s, b.end, b.end)) == s[b.end..]
    ensures Serialize(TextBetween(s, last, b.start) + [MentionPart(NameOf(s, b), IdOf(s, b))]
      + DisplayFrom(s, b.end, b.end)) == s[last..]
  {
    var t := TextBetween(s, last, b.start);
    var m := [MentionPart(NameOf(s, b), IdOf(s, b))];
    var r := DisplayFrom(s, b.end, b.end);
    SerializeAppend(t + m, r);
    SerializeAppend(t, m);
    TextBetweenText(s, last, b.start);
    MatchText(s, b);
    assert Serialize(m) == s[b.start..b.end] + "";
    SliceJoin(s, b.start, b.end);
    SliceJoin(s, last, b.start);
    AppendAssoc(s[last..b.start], s[b.start..b.end], s[b.end..]);
  }

  /** Writing the parts back, text as it is and each mention as `@content[userId]`,
      reproduces the comment. */
  lemma DisplayRoundTrip(s: string)
    ensures Serialize(DisplayParts(s)) == s
  {
    DisplayFromText(s, 0, 0);
  }

  predicate NoEmptyText(parts: seq<DisplayPart>) {
    forall i :: 0 <= i < |parts| && parts[i].TextPart? ==> parts[i].content != ""
  }

  lemma NoEmptyTextAppend(a: seq<DisplayPart>, b: seq<DisplayPart>)
    requires NoEmptyText(a) && NoEmptyText(b)
    ensures NoEmptyText(a + b)
  {
    forall i | 0 <= i < |a + b| && (a + b)[i].TextPart? ensures (a + b)[i].content != "" {
      if i < |a| {
        assert (a + b)[i] == a[i];
      } else {
        assert (a + b)[i] == b[i - |a|];
      }
    }
  }

  lemma {:induction false} DisplayFromNoEmptyText(s: string, last: nat, pos: nat)
    requires last <= pos <= |s|
    ensures NoEmptyText(DisplayFrom(s, last, pos))
    decreases |s| - pos
  {
    if pos < |s| {
      match BracketedAt(s, pos, WithIdNameChar)
      case Some(b) =>
        DisplayFromNoEmptyText(s, b.end, b.end);
        MentionStepNoEmptyText(s, last, b);
      case None =>
        DisplayFromNoEmptyText(s, last, pos + 1);
    }
  }

  lemma MentionStepNoEmptyText(s: string, last: nat, b: Bracketed)
    requires last <= b.start && ValidBracketed(s, b, WithIdNameChar)
    requires NoEmptyText(DisplayFrom(s, b.end, b.end))
    ensures NoEmptyText(TextBetween(s, last, b.start) + [MentionPart(NameOf(s, b), IdOf(s, b))]
      + DisplayFrom(s, b.end, b.end))
  {
    var t := TextBetween(s, last, b.start);
    var m := [MentionPart(NameOf(s, b), IdOf(s, b))];
    NoEmptyTextAppend(t, m);
    NoEmptyTextAppend(t + m, DisplayFrom(s, b.end, b.end));
  }

  /** The display parser never emits an empty text part. */
  lemma DisplayNoEmptyText(s: string)
    ensures NoEmptyText(DisplayParts(s))
  {
    DisplayFromNoEmptyText(s, 0, 0);
  }

  /** The mention the editor writes for a member. */
  function MentionToken(name: string, id: string): string {
    "@" + name + "[" + id + "]"
  }

  /** Where the parts of a lone token sit. */
  lemma TokenLayout(name: string, id: string)
    requires forall k :: 0 <= k < |name| ==> WithIdNameChar(name[k])
    requires forall k :: 0 <= k < |id| ==> IsAlnum(id[k])
    ensures var s := MentionToken(name, id);
      var q := 1 + |name|;
      var e := q + 1 + |id|;
      && |s| == e + 1 && s[0] == '@' && s[q] == '[' && s[e] == ']'
      && (forall k :: 1 <= k < q ==> WithIdNameChar(s[k]))
      && (forall k :: q < k < e ==> IsAlnum(s[k]))
      && s[1..q] == name && s[q + 1..e] == id
  {
    var s := MentionToken(name, id);
    var q := 1 + |name|;
    var e := q + 1 + |id|;
    forall k | 1 <= k < q ensures WithIdNameChar(s[k]) {
      assert s[k] == name[k - 1];
    }
    forall k | q < k < e ensures IsAlnum(s[k]) {
      assert s[k] == id[k - q - 1];
    }
    assert s[1..q] == name;
    assert s[q + 1..e] == id;
  }

  /** A token with a non-empty name free of `@`, `[` and `]` and a non-empty
      alphanumeric id reads back as exactly that mention. */
  lemma TokenReadsBack(name: string, id: string)
    requires name != [] && forall k :: 0 <= k < |name| ==> WithIdNameChar(name[k])
    requires id != [] && forall k :: 0 <= k < |id| ==> IsAlnum(id[k])
    ensures DisplayParts(MentionToken(name, id)) == [MentionPart(name, id)]
  {
    var s := MentionToken(name, id);
    var q := 1 + |name|;
    var e := q + 1 + |id|;
    TokenLayout(name, id);
    RunEndAt(s, 1, q, WithIdNameChar);
    RunEndAt(s, q + 1, e, IsAlnum);
    var b := Bracketed(0, q, e + 1);
    assert BracketedAt(s, 0, WithIdNameChar) == Some(b);
    assert NameOf(s, b) == name;
    assert IdOf(s, b) == id;
    assert DisplayFrom(s, e + 1, e + 1) == [];
  }

  // ----- the mention trigger -----

  /** An open dropdown's query and the index of its `@`. */
  datatype Trigger = Trigger(query: string, start: nat)

  function BeforeCursor(text: string, cursor: nat): string {
    text[..Min(cursor, |text|)]
  }

  /** The trigger check on the text node under the caret. */
  function MentionTrigger(text: string, cursor: nat): (r: Option<Trigger>)
    ensures '@' !in BeforeCursor(text, cursor) ==> r.None?
    ensures r.Some? ==> var before := BeforeCursor(text, cursor);
      && r.value.start < |before| && before[r.value.start] == '@'
      && r.value.query == before[r.value.start + 1..]
  {
    var before := BeforeCursor(text, cursor);
    var at := LastIndexOf(before, '@');
    if at == -1 then None
    else
      var charBefore := if at > 0 then before[at - 1] else ' ';
      if charBefore == ' ' || charBefore == '\n' || at == 0 then
        var query := before[at + 1..];
        if ' ' !in query && '\n' !in query && '[' !in query then Some(Trigger(query, at)) else None
      else None
  }

  /** The `@` at `i` opens the dropdown: it is the last `@` before the cursor, it
      starts the text or follows a space or newline, and nothing after it up to the
      cursor is a space, a newline or a `[`. */
  predicate OpensAt(before: string, i: nat) {
    && i < |before| && before[i] == '@'
    && (i == 0 || before[i - 1] == ' ' || before[i - 1] == '\n')
    && forall j :: i < j < |before| ==> before[j] != '@' && before[j] != ' ' && before[j] != '\n' && before[j] != '['
  }

  /** The trigger opens with query `t.query` at `t.start` exactly when the `@` at
      `t.start` opens the dropdown and the query is the text between it and the
      cursor. */
  lemma TriggerOpens(text: string, cursor: nat, t: Trigger)
    ensures MentionTrigger(text, cursor) == Some(t)
        <==> OpensAt(BeforeCursor(text, cursor), t.start) && t.query == BeforeCursor(text, cursor)[t.start + 1..]
  {
    var before := BeforeCursor(text, cursor);
    if OpensAt(before, t.start) && t.query == before[t.start + 1..] {
      var at := LastIndexOf(before, '@');
      assert at == t.start;
      var query := before[at + 1..];
      forall c | c in query ensures c != ' ' && c != '\n' && c != '[' {
        var k :| 0 <= k < |query| && query[k] == c;
        assert before[at + 1 + k] == c;
      }
    }
    if MentionTrigger(text, cursor) == Some(t) {
      var at := LastIndexOf(before, '@');
      var query := before[at + 1..];
      forall j | t.start < j < |before|
        ensures before[j] != '@' && before[j] != ' ' && before[j] != '\n' && before[j] != '['
      {
        assert before[j] == query[j - at - 1];
      }
    }
  }

  /** The trigger stays shut exactly when no `@` before the cursor opens the
      dropdown. */
  lemma TriggerShut(text: string, cursor: nat)
    ensures MentionTrigger(text, cursor) == None
        <==> forall i: nat :: !OpensAt(BeforeCursor(text, cursor), i)
  {
    var before := BeforeCursor(text, cursor);
    if i: nat :| OpensAt(before, i) {
      TriggerOpens(text, cursor, Trigger(before[i + 1..], i));
    }
    if MentionTrigger(text, cursor).Some? {
      var t := MentionTrigger(text, cursor).value;
      TriggerOpens(text, cursor, t);
    }
  }

  // ----- the member filter -----

  predicate MatchesQuery(m: Member, query: string) {
    || HasSubstring(ToLower(m.name.GetOr("")), ToLower(query))
    || HasSubstring(ToLower(m.email.GetOr("")), ToLower(query))
  }

  function KeepMatching(members: seq<Member>, query: string): (r: seq<Member>)
    ensures |r| <= |members|
    ensures forall m :: m in r <==> m in members && MatchesQuery(m, query)
  {
    if members == [] then []
    else
      var rest := KeepMatching(members[1..], query);
      assert forall m :: m in members <==> m == members[0] || m in members[1..];
      if MatchesQuery(members[0], query) then [members[0]] + rest else rest
  }

  /** The dropdown's members: everyone for an empty query, otherwise those whose name
      or email contains the query, ignoring case, in the list's order. */
  function FilterMembers(members: seq<Member>, query: string): (r: seq<Member>)
    ensures query == "" ==> r == members
    ensures query != "" ==> forall m :: m in r <==> m in members && MatchesQuery(m, query)
  {
    if query == "" then members else KeepMatching(members, query)
  }

  lemma {:induction false} KeepMatchingAll(members: seq<Member>, query: string)
    requires forall m :: m in members ==> MatchesQuery(m, query)
    ensures KeepMatching(members, query) == members
  {
    if members != [] {
      assert members[0] in members;
      assert forall m :: m in members[1..] ==> m in members;
      KeepMatchingAll(members[1..], query);
      assert KeepMatching(members, query) == [members[0]] + members[1..];
      assert [members[0]] + members[1..] == members;
    }
  }

  /** The empty-query shortcut agrees with the filter itself: every member's name
      contains the empty string. */
  lemma EmptyQueryShortcut(members: seq<Member>)
    ensures FilterMembers(members, "") == KeepMatching(members, "")
  {
    forall m | m in members ensures MatchesQuery(m, "") {
      assert StartsWith(ToLower(m.name.GetOr("")), "");
    }
    KeepMatchingAll(members, "");
  }

  // ----- dropdown navigation -----

  /** ArrowDown: the next entry, wrapping from the last to the first. */
  function NextIndex(i: int, n: nat): (r: int)
    requires n > 0
    ensures 0 <= i < n ==> 0 <= r < n
  {
    if i < n - 1 then i + 1 else 0
  }

  /** ArrowUp: the previous entry, wrapping from the first to the last. */
  function PrevIndex(i: int, n: nat): (r: int)
    requires n > 0
    ensures 0 <= i < n ==> 0 <= r < n
  {
    if i > 0 then i - 1 else n - 1
  }

  /** Wrapping ArrowDown is the successor modulo the number of entries, ArrowUp the
      predecessor. */
  lemma IndexStepsAreModular(i: int, n: nat)
    requires 0 <= i < n
    ensures NextIndex(i, n) == (i + 1) % n
    ensures PrevIndex(i, n) == (i + n - 1) % n
  {
    if i == n - 1 {
      WrapMod(i + 1, n);
    } else {
      SmallMod(i + 1, n);
    }
    if i == 0 {
      SmallMod(i + n - 1, n);
    } else {
      WrapMod(i + n - 1, n);
    }
  }

  lemma SmallMod(x: int, n: int)
    requires 0 <= x < n
    ensures x % n == x
  {
  }

  lemma WrapMod(x: int, n: int)
    requires 0 < n <= x < 2 * n
    ensures x % n == x - n
  {
    assert x == n * 1 + (x - n);
  }

  /** ArrowUp undoes ArrowDown and the other way round. */
  lemma IndexStepsInverse(i: int, n: nat)
    requires 0 <= i < n
    ensures PrevIndex(NextIndex(i, n), n) == i
    ensures NextIndex(PrevIndex(i, n), n) == i
  {
  }

  /** `k` presses of ArrowDown. */
  function Advance(i: int, n: nat, k: nat): int
    requires n > 0
  {
    if k == 0 then i else NextIndex(Advance(i, n, k - 1), n)
  }

  /** Before the wrap, each press moves one entry down. */
  lemma {:induction false} AdvanceWithin(i: int, n: nat, k: nat)
    requires 0 <= i && i + k < n
    ensures Advance(i, n, k) == i + k
  {
    if k > 0 {
      AdvanceWithin(i, n, k - 1);
    }
  }

  lemma {:induction false} AdvanceSplit(i: int, n: nat, a: nat, b: nat)
    requires n > 0
    ensures Advance(i, n, a + b) == Advance(Advance(i, n, a), n, b)
  {
    if b > 0 {
      AdvanceSplit(i, n, a, b - 1);
    }
  }

  /** As many ArrowDown presses as there are entries come back to the start. */
  lemma FullCycle(i: int, n: nat)
    requires 0 <= i < n
    ensures Advance(i, n, n) == i
  {
    AdvanceWithin(i, n, n - 1 - i);
    assert Advance(i, n, n - i) == 0;
    AdvanceSplit(i, n, n - i, i);
    AdvanceWithin(0, n, i);
  }

  // ----- inserting a member -----

  /** The caret when an event arrives: whether the node it sits in is a text node,
      that node's text, the caret's offset in it, and whether the node is attached to
      a parent. */
  datatype Caret = Caret(isText: bool, text: string, offset: nat, attached: bool)

  /** `name || email || "User"`. */
  function DisplayName(m: Member): (r: string)
    ensures r != ""
    ensures r == "User" || (m.name.Some? && r == m.name.value) || (m.email.Some? && r == m.email.value)
  {
    if m.name.Some? && m.name.value != "" then m.name.value
    else if m.email.Some? && m.email.value != "" then m.email.value
    else "User"
  }

  /** The serialisation of the nodes that take the place of the caret's text node
      when a member is inserted: the text before the last `@` before the caret, the
      mention, the text after the caret and a space. `None` when the node is left as
      it is. */
  function Replacement(c: Caret, m: Member): (r: Option<string>)
    ensures r.Some? <==> c.isText && c.text != "" && c.attached && '@' in c.text[..Min(c.offset, |c.text|)]
    ensures r.Some? ==> r.value != [] && r.value[|r.value| - 1] == ' '
  {
    if c.isText && c.text != "" then
      var cursor := Min(c.offset, |c.text|);
      var at := LastIndexOf(c.text[..cursor], '@');
      if at != -1 && c.attached then
        Some(c.text[..at] + MentionToken(DisplayName(m), m.userId) + c.text[cursor..] + " ")
      else None
    else None
  }

  function CaretTrigger(c: Caret): Option<Trigger> {
    if c.isText && c.text != "" then MentionTrigger(c.text, c.offset) else None
  }

  /** When the dropdown was opened from this caret, inserting a member replaces
      exactly the `@query` it was opened for, keeps the text around it and adds a
      space after the mention. */
  lemma InsertionReplacesQuery(c: Caret, m: Member)
    requires CaretTrigger(c).Some? && c.attached
    ensures var t := CaretTrigger(c).value;
      var qEnd := t.start + 1 + |t.query|;
      && qEnd <= |c.text|
      && c.text == c.text[..t.start] + "@" + t.query + c.text[qEnd..]
      && Replacement(c, m) == Some(c.text[..t.start] + MentionToken(DisplayName(m), m.userId) + c.text[qEnd..] + " ")
  {
    var t := CaretTrigger(c).value;
    var before := BeforeCursor(c.text, c.offset);
    var cursor := Min(c.offset, |c.text|);
    assert LastIndexOf(before, '@') == t.start;
    var qEnd := t.start + 1 + |t.query|;
    assert qEnd == |before| == cursor;
    assert c.text[t.start + 1..qEnd] == t.query;
    AroundQuery(c.text, t.start, qEnd);
  }

  /** A text is the part before an `@`, the `@`, the query after it and the rest. */
  lemma AroundQuery(s: string, at: nat, qEnd: nat)
    requires at < qEnd <= |s| && s[at] == '@'
    ensures s == s[..at] + "@" + s[at + 1..qEnd] + s[qEnd..]
  {
    CutAt(s, at);
    SliceJoin(s, at + 1, qEnd);
  }

  // ----- initials -----

  /** The avatar initials in the dropdown: the word initials of a non-empty name,
      otherwise the upper-cased first character of a non-empty email, otherwise `?`. */
  function MemberInitials(m: Member): (r: string)
    ensures |r| <= 2 && IsUpperCase(r)
    ensures m.name.Some? && m.name.value != "" ==> r == Initials.WordInitials(m.name.value)
    ensures !(m.name.Some? && m.name.value != "") && m.email.Some? && m.email.value != ""
      ==> r == [ToUpperChar(m.email.value[0])]
    ensures !(m.name.Some? && m.name.value != "") && !(m.email.Some? && m.email.value != "") ==> r == "?"
  {
    if m.name.Some? && m.name.value != "" then Initials.WordInitials(m.name.value)
    else if m.email.Some? && m.email.value != "" then ToUpper(m.email.value[..1])
    else "?"
  }

  // ----- the component's state -----

  datatype Key = ArrowDown | ArrowUp | Enter | Tab | Escape | OtherKey

  /** The dropdown state of one comment box over a fixed member list. `shownCount` is
      the number of filtered members at the last render: the component resets the
      highlight to the first entry whenever that number changes. */
  class MentionBox {
    const members: seq<Member>
    var showMentions: bool
    var mentionQuery: string
    var mentionStartIndex: int
    var selectedIndex: int
    var shownCount: nat

    function Filtered(): seq<Member>
      reads this
    {
      FilterMembers(members, mentionQuery)
    }

    /** The highlight is the first entry or an entry of the last rendered list. */
    ghost predicate InRange()
      reads this
    {
      0 <= selectedIndex && (selectedIndex == 0 || selectedIndex < shownCount)
    }

    /** The highlight indexes the whole filtered list, not only the first ten rows
        the dropdown renders. */
    ghost predicate Valid()
      reads this
    {
      InRange() && shownCount == |Filtered()|
    }

    constructor(members: seq<Member>)
      ensures this.members == members
      ensures !showMentions && mentionQuery == "" && mentionStartIndex == -1 && selectedIndex == 0
      ensures Valid()
    {
      this.members := members;
      showMentions := false;
      mentionQuery := "";
      mentionStartIndex := -1;
      selectedIndex := 0;
      shownCount := |members|;
    }

    /** The effect on the filtered list's length. */
    method SyncSelection()
      requires InRange()
      modifies this
      ensures Valid()
      ensures selectedIndex == if old(|Filtered()|) == old(shownCount) then old(selectedIndex) else 0
      ensures showMentions == old(showMentions) && mentionQuery == old(mentionQuery)
      ensures mentionStartIndex == old(mentionStartIndex)
    {
      var n := |Filtered()|;
      if n != shownCount {
        selectedIndex := 0;
        shownCount := n;
      }
    }

    /** After each edit: open the dropdown on a trigger, close it otherwise; nothing
        happens without a selection. */
    method HandleInput(sel: Option<Caret>)
      requires Valid()
      modifies this
      ensures Valid()
      ensures sel.None? ==>
        && showMentions == old(showMentions) && mentionQuery == old(mentionQuery)
        && mentionStartIndex == old(mentionStartIndex) && selectedIndex == old(selectedIndex)
      ensures sel.Some? && CaretTrigger(sel.value).Some? ==>
        var t := CaretTrigger(sel.value).value;
        showMentions && mentionQuery == t.query && mentionStartIndex == t.start
      ensures sel.Some? && CaretTrigger(sel.value).None? ==>
        !showMentions && mentionQuery == "" && mentionStartIndex == -1
      ensures selectedIndex == if |Filtered()| == old(shownCount) then old(selectedIndex) else 0
    {
      if sel.None? {
        return;
      }
      var t := CaretTrigger(sel.value);
      if t.Some? {
        mentionQuery := t.value.query;
        mentionStartIndex := t.value.start as int;
        showMentions := true;
      } else {
        showMentions := false;
        mentionQuery := "";
        mentionStartIndex := -1;
      }
      SyncSelection();
    }

    /** Inserting a member: the caret's text node is replaced (when it can be) and the
        dropdown closes; nothing happens without a selection. */
    method InsertMention(m: Member, sel: Option<Caret>) returns (edit: Option<string>)
      requires Valid()
      modifies this
      ensures Valid()
      ensures sel.None? ==>
        && edit.None? && showMentions == old(showMentions)
        && mentionQuery == old(mentionQuery) && mentionStartIndex == old(mentionStartIndex)
        && selectedIndex == old(selectedIndex)
      ensures sel.Some? ==>
        && edit == Replacement(sel.value, m)
        && !showMentions && mentionQuery == "" && mentionStartIndex == -1
      ensures selectedIndex == if |Filtered()| == old(shownCount) then old(selectedIndex) else 0
    {
      if sel.None? {
        return None;
      }
      edit := Replacement(sel.value, m);
      showMentions := false;
      mentionQuery := "";
      mentionStartIndex := -1;
      SyncSelection();
    }

    /** A mouse press outside the editor and the dropdown closes the dropdown. */
    method ClickOutside()
      modifies this
      ensures !showMentions
      ensures mentionQuery == old(mentionQuery) && mentionStartIndex == old(mentionStartIndex)
      ensures selectedIndex == old(selectedIndex) && shownCount == old(shownCount)
    {
      showMentions := false;
    }

    /** A key press. With the dropdown open on a non-empty list, the arrows move the
        highlight cyclically, Enter and Tab insert the highlighted member and Escape
        closes the list; these never submit. Otherwise Enter without Shift submits
        when the dropdown is closed. */
    method HandleKeyDown(key: Key, shift: bool, sel: Option<Caret>)
        returns (prevented: bool, submitted: bool, inserted: Option<Member>, edit: Option<string>)
      requires Valid()
      modifies this
      ensures Valid()
      ensures var n := old(|Filtered()|);
        var listOpen := old(showMentions) && n > 0;
        && (listOpen && key == ArrowDown ==>
              prevented && !submitted && inserted.None? && edit.None?
              && selectedIndex == NextIndex(old(selectedIndex), n)
              && showMentions == old(showMentions) && mentionQuery == old(mentionQuery))
        && (listOpen && key == ArrowUp ==>
              prevented && !submitted && inserted.None? && edit.None?
              && selectedIndex == PrevIndex(old(selectedIndex), n)
              && showMentions == old(showMentions) && mentionQuery == old(mentionQuery))
        && (listOpen && (key == Enter || key == Tab) ==>
              prevented && !submitted && inserted == Some(old(Filtered())[old(selectedIndex)])
              && (sel.Some? ==>
                    && edit == Replacement(sel.value, inserted.value)
                    && !showMentions && mentionQuery == "" && mentionStartIndex == -1)
              && (sel.None? ==>
                    && edit.None? && showMentions == old(showMentions)
                    && mentionQuery == old(mentionQuery)))
        && (listOpen && key == Escape ==>
              prevented && !submitted && inserted.None? && edit.None?
              && !showMentions && mentionQuery == old(mentionQuery)
              && selectedIndex == old(selectedIndex))
        && (!listOpen || key == OtherKey ==>
              inserted.None? && edit.None?
              && submitted == (key == Enter && !shift && !old(showMentions))
              && prevented == submitted
              && showMentions == old(showMentions) && mentionQuery == old(mentionQuery)
              && mentionStartIndex == old(mentionStartIndex) && selectedIndex == old(selectedIndex))
    {
      prevented, submitted, inserted, edit := false, false, None, None;
      var filtered := Filtered();
      var n := |filtered|;
      if showMentions && n > 0 {
        if key == ArrowDown {
          prevented := true;
          selectedIndex := NextIndex(selectedIndex, n);
          return;
        }
        if key == ArrowUp {
          prevented := true;
          selectedIndex := PrevIndex(selectedIndex, n);
          return;
        }
        if key == Enter || key == Tab {
          prevented := true;
          inserted := Some(filtered[selectedIndex]);
          edit := InsertMention(filtered[selectedIndex], sel);
          return;
        }
        if key == Escape {
          prevented := true;
          showMentions := false;
          return;
        }
      }
      if key == Enter && !shift && !showMentions {
        prevented := true;
        submitted := true;
      }
    }
  }
}
