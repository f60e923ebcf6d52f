/** Splitting a comment into text and mention parts for display
    (`parseContentWithMentions` in src/features/comments/utils/mention-utils.ts).
    Mentions are collected in two passes, `@name[id]` first and then plain `@name`
    matches that do not start inside one of those, sorted by start, and the content
    is cut at them. */
module MentionParts {
  import opened Common
  import opened Sorting
  import opened Mentions

  /** An entry of the `mentions` array: the matched stretch `[start, end)`, the trimmed
      name, and the id of an `@name[id]` match. */
  datatype Span = Span(start: nat, end: nat, name: string, userId: Option<string>)

  /** `ContentPart`. */
  datatype ContentPart = Text(content: string) | Mention(name: string, userId: Option<string>)

  function SpanStart(m: Span): int { m.start }

  // ----- first pass: `/@([^@\[\]]+?)\[([a-zA-Z0-9]+)\]/g` -----

  /** The entry pushed for one `@name[id]` match. */
  function WithIdSpan(s: string, b: Bracketed): Span
    requires b.start < b.nameEnd && b.nameEnd + 1 < b.end <= |s|
  {
    Span(b.start, b.end, Trim(NameOf(s, b)), Some(IdOf(s, b)))
  }

  /** The entries of the first pass from `from` on: the regex is tried at `from`, and
      the search resumes after a match or one character further on. */
  function WithIdSpansFrom(s: string, from: nat): seq<Span>
    requires from <= |s|
    decreases |s| - from
  {
    if from == |s| then []
    else
      match BracketedAt(s, from, WithIdNameChar)
      case Some(b) => [WithIdSpan(s, b)] + WithIdSpansFrom(s, b.end)
      case None => WithIdSpansFrom(s, from + 1)
  }

  // ----- second pass: `/@([\w.-]+)/g`, skipping matches that start inside an entry -----

  /** The entry pushed for a plain match: no id. */
  function PlainSpan(s: string, h: Hit): Span
    requires h.start < h.end <= |s|
  {
    Span(h.start, h.end, HitName(s, h), None)
  }

  /** `mentions.some(m => index >= m.start && index < m.end)` */
  predicate Overlaps(ms: seq<Span>, p: int) {
    exists k :: 0 <= k < |ms| && ms[k].start <= p < ms[k].end
  }

  predicate HitsInRange(s: string, hits: seq<Hit>) {
    forall i :: 0 <= i < |hits| ==> hits[i].start < hits[i].end <= |s|
  }

  /** The entries of the plain matches that do not start inside an entry of `w`. */
  function Kept(s: string, w: seq<Span>, hits: seq<Hit>): seq<Span>
    requires HitsInRange(s, hits)
  {
    if hits == [] then []
    else if Overlaps(w, hits[0].start) then Kept(s, w, hits[1..])
    else [PlainSpan(s, hits[0])] + Kept(s, w, hits[1..])
  }

  /** The entries of the second pass from `from` on. */
  function KeptFrom(s: string, w: seq<Span>, from: nat): seq<Span>
    requires from <= |s|
  {
    Kept(s, w, GreedyHitsFrom(s, from))
  }

  /** One attempt of the second regex at `pos`. */
  lemma KeptStep(s: string, w: seq<Span>, pos: nat)
    requires pos < |s|
    ensures if s[pos] == '@' && RunEnd(s, pos + 1, PlainNameChar) > pos + 1 then
              var e := RunEnd(s, pos + 1, PlainNameChar);
              KeptFrom(s, w, pos)
              == if Overlaps(w, pos) then KeptFrom(s, w, e) else [PlainSpan(s, Hit(pos, e))] + KeptFrom(s, w, e)
            else KeptFrom(s, w, pos) == KeptFrom(s, w, pos + 1)
  {
  }

  /** The bracketed entries of the content, in order. */
  function WithIdSpans(s: string): seq<Span> {
    WithIdSpansFrom(s, 0)
  }

  /** The `mentions` array before sorting. */
  function Collected(s: string): seq<Span> {
    WithIdSpans(s) + KeptFrom(s, WithIdSpans(s), 0)
  }

  /** Entries that end by `p` never contain it. */
  lemma OverlapsAfter(w: seq<Span>, pushed: seq<Span>, p: int)
    requires forall k :: 0 <= k < |pushed| ==> pushed[k].end <= p
    ensures Overlaps(w + pushed, p) <==> Overlaps(w, p)
  {
    var ms := w + pushed;
    if Overlaps(ms, p) {
      var k :| 0 <= k < |ms| && ms[k].start <= p < ms[k].end;
      assert k < |w|;
    }
    if Overlaps(w, p) {
      var k :| 0 <= k < |w| && w[k].start <= p < w[k].end;
      assert ms[k] == w[k];
    }
  }

  /** The two `while (regex.exec(content))` passes. */
  method CollectMentions(content: string) returns (mentions: seq<Span>)
    ensures mentions == Collected(content)
  {
    mentions := FirstPass(content);
    mentions := SecondPass(content, mentions);
  }

  /** The first pass: one entry per `@name[id]` match. */
  method FirstPass(content: string) returns (mentions: seq<Span>)
    ensures mentions == WithIdSpans(content)
  {
    mentions := [];
    var pos := 0;
    AppendEmpty(WithIdSpans(content));
    while pos < |content|
      invariant 0 <= pos <= |content|
      invariant mentions + WithIdSpansFrom(content, pos) == WithIdSpans(content)
      decreases |content| - pos
    {
      FirstPassStep(content, pos, mentions);
      match BracketedAt(content, pos, WithIdNameChar) {
        case Some(b) =>
          mentions := mentions + [WithIdSpan(content, b)];
          pos := b.end;
        case None =>
          pos := pos + 1;
      }
    }
    AppendEmpty(mentions);
  }

  /** The second pass over the entries `w` of the first: a plain match is pushed
      unless it starts inside an entry already present. */
  method SecondPass(content: string, w: seq<Span>) returns (mentions: seq<Span>)
    ensures mentions == w + KeptFrom(content, w, 0)
  {
    mentions := w;
    ghost var pushed: seq<Span> := [];
    var pos := 0;
    AppendEmpty(w);
    AppendEmpty(KeptFrom(content, w, 0));
    while pos < |content|
      invariant 0 <= pos <= |content|
      invariant mentions == w + pushed
      invariant forall k :: 0 <= k < |pushed| ==> pushed[k].end <= pos
      invariant pushed + KeptFrom(content, w, pos) == KeptFrom(content, w, 0)
      decreases |content| - pos
    {
      SecondPassStep(content, w, pos, pushed);
      if content[pos] == '@' && RunEnd(content, pos + 1, PlainNameChar) > pos + 1 {
        var e := RunEnd(content, pos + 1, PlainNameChar);
        var overlaps := Overlaps(mentions, pos);
        OverlapsAfter(w, pushed, pos);
        if !overlaps {
          var span := PlainSpan(content, Hit(pos, e));
          AppendAssoc(w, pushed, [span]);
          mentions := mentions + [span];
          pushed := pushed + [span];
        }
        pos := e;
      } else {
        pos := pos + 1;
      }
    }
    AppendEmpty(pushed);
  }

  /** One turn of the first loop keeps "pushed so far, then the rest" equal to the
      whole first pass. */
  lemma FirstPassStep(s: string, pos: nat, acc: seq<Span>)
    requires pos < |s| && acc + WithIdSpansFrom(s, pos) == WithIdSpans(s)
    ensures match BracketedAt(s, pos, WithIdNameChar)
            case Some(b) =>
              && pos < b.start + 2 <= b.nameEnd && b.nameEnd + 2 < b.end <= |s|
              && (acc + [WithIdSpan(s, b)]) + WithIdSpansFrom(s, b.end) == WithIdSpans(s)
            case None => acc + WithIdSpansFrom(s, pos + 1) == WithIdSpans(s)
  {
    match BracketedAt(s, pos, WithIdNameChar)
    case Some(b) =>
      AppendAssoc(acc, [WithIdSpan(s, b)], WithIdSpansFrom(s, b.end));
    case None =>
  }

  /** One turn of the second loop keeps "pushed so far, then the rest" equal to the
      whole second pass. */
  lemma SecondPassStep(s: string, w: seq<Span>, pos: nat, pushed: seq<Span>)
    requires pos < |s| && pushed + KeptFrom(s, w, pos) == KeptFrom(s, w, 0)
    ensures var e := RunEnd(s, pos + 1, PlainNameChar);
      if s[pos] == '@' && e > pos + 1 then
        && (Overlaps(w, pos) ==> pushed + KeptFrom(s, w, e) == KeptFrom(s, w, 0))
        && (!Overlaps(w, pos) ==> (pushed + [PlainSpan(s, Hit(pos, e))]) + KeptFrom(s, w, e) == KeptFrom(s, w, 0))
      else pushed + KeptFrom(s, w, pos + 1) == KeptFrom(s, w, 0)
  {
    KeptStep(s, w, pos);
    var e := RunEnd(s, pos + 1, PlainNameChar);
    if s[pos] == '@' && e > pos + 1 && !Overlaps(w, pos) {
      AppendAssoc(pushed, [PlainSpan(s, Hit(pos, e))], KeptFrom(s, w, e));
    }
  }

  // ----- the collected entries are disjoint -----

  /** A stretch that starts at an `@` and holds no other `@`. */
  predicate AtSpan(s: string, m: Span) {
    m.start < m.end <= |s| && s[m.start] == '@' && forall k :: m.start < k < m.end ==> s[k] != '@'
  }

  /** Each entry ends by the start of every later one. */
  predicate SpansOrdered(ms: seq<Span>) {
    forall i, j :: 0 <= i < j < |ms| ==> ms[i].end <= ms[j].start
  }

  predicate HitsOrdered(hits: seq<Hit>) {
    forall i, j :: 0 <= i < j < |hits| ==> hits[i].end <= hits[j].start
  }

  /** No two entries start at the same offset. */
  predicate DistinctStarts(ms: seq<Span>) {
    forall i, j :: 0 <= i < j < |ms| ==> ms[i].start != ms[j].start
  }

  /** An `@name[id]` match holds no `@` after its first character. */
  lemma WithIdSpanAt(s: string, b: Bracketed)
    requires ValidBracketed(s, b, WithIdNameChar)
    ensures AtSpan(s, WithIdSpan(s, b))
  {
    forall k | b.start < k < b.end ensures s[k] != '@' {
      if k < b.nameEnd {
        assert WithIdNameChar(s[k]);
      } else if b.nameEnd < k < b.end - 1 {
        assert IsAlnum(s[k]);
      }
    }
  }

  /** The first-pass entries are `@`-headed, carry an id, and follow one another. */
  lemma WithIdShape(s: string)
    ensures forall i :: 0 <= i < |WithIdSpans(s)| ==> AtSpan(s, WithIdSpans(s)[i]) && WithIdSpans(s)[i].userId.Some?
    ensures SpansOrdered(WithIdSpans(s))
  {
    WithIdFromShape(s, 0);
    assert IdHeaded(s, WithIdSpans(s), 0);
  }

  lemma {:induction false} WithIdFromShape(s: string, from: nat)
    requires from <= |s|
    ensures IdHeaded(s, WithIdSpansFrom(s, from), from)
    decreases |s| - from
  {
    if from < |s| {
      match BracketedAt(s, from, WithIdNameChar)
      case Some(b) =>
        WithIdFromShape(s, b.end);
        WithIdSpanAt(s, b);
        IdHeadedCons(s, WithIdSpan(s, b), WithIdSpansFrom(s, b.end), from);
      case None =>
        WithIdFromShape(s, from + 1);
    }
  }

  /** Entries that are `@`-headed, carry an id, start at or after `from` and follow
      one another. */
  predicate IdHeaded(s: string, ms: seq<Span>, from: nat) {
    && (forall i :: 0 <= i < |ms| ==> AtSpan(s, ms[i]) && ms[i].userId.Some? && from <= ms[i].start)
    && SpansOrdered(ms)
  }

  lemma IdHeadedCons(s: string, m: Span, rest: seq<Span>, from: nat)
    requires AtSpan(s, m) && m.userId.Some? && from <= m.start
    requires IdHeaded(s, rest, m.end)
    ensures IdHeaded(s, [m] + rest, from)
  {
    var r := [m] + rest;
    forall i | 0 < i < |r| ensures r[i] == rest[i - 1] && m.end <= r[i].start {
    }
    forall i, j | 0 <= i < j < |r| ensures r[i].end <= r[j].start {
      if i > 0 {
        assert r[i] == rest[i - 1] && r[j] == rest[j - 1];
      }
    }
  }

  /** A stretch with no `@` holds no first-pass entry. */
  lemma {:induction false} WithIdFromNoAt(s: string, from: nat)
    requires from <= |s| && forall k :: from <= k < |s| ==> s[k] != '@'
    ensures WithIdSpansFrom(s, from) == []
    decreases |s| - from
  {
    if from < |s| {
      WithIdFromNoAt(s, from + 1);
    }
  }

  /** A plain match that starts at an `@` and holds no other `@`. */
  predicate AtHit(s: string, h: Hit) {
    h.start < h.end <= |s| && s[h.start] == '@' && forall k :: h.start < k < h.end ==> s[k] != '@'
  }

  /** Every kept entry is the entry of one of the matches, which starts inside no
      entry of `w`. */
  lemma {:induction false} KeptSource(s: string, w: seq<Span>, hits: seq<Hit>, m: Span)
    requires HitsInRange(s, hits) && m in Kept(s, w, hits)
    ensures m.userId.None? && exists i :: 0 <= i < |hits| && m.start == hits[i].start && m.end == hits[i].end
                                          && !Overlaps(w, hits[i].start)
    decreases |hits|
  {
    var tail := hits[1..];
    assert HitsInRange(s, tail) by {
      assert forall i :: 0 <= i < |tail| ==> tail[i] == hits[i + 1];
    }
    var rest := Kept(s, w, tail);
    if m in rest {
      KeptSource(s, w, tail, m);
      var i :| 0 <= i < |tail| && m.start == tail[i].start && m.end == tail[i].end && !Overlaps(w, tail[i].start);
      assert tail[i] == hits[i + 1];
    } else {
      assert m == PlainSpan(s, hits[0]) && !Overlaps(w, hits[0].start);
    }
  }

  /** The kept entries start at or after `lo` and follow one another. */
  lemma {:induction false} KeptOrdered(s: string, w: seq<Span>, hits: seq<Hit>, lo: int)
    requires HitsInRange(s, hits) && HitsOrdered(hits)
    requires forall i :: 0 <= i < |hits| ==> lo <= hits[i].start
    ensures forall i :: 0 <= i < |Kept(s, w, hits)| ==> lo <= Kept(s, w, hits)[i].start
    ensures SpansOrdered(Kept(s, w, hits))
    decreases |hits|
  {
    if hits != [] {
      var h, tail := hits[0], hits[1..];
      assert forall i :: 0 <= i < |tail| ==> tail[i] == hits[i + 1];
      KeptOrdered(s, w, tail, h.end);
      var rest := Kept(s, w, tail);
      if !Overlaps(w, h.start) {
        var r := [PlainSpan(s, h)] + rest;
        assert forall i :: 0 < i < |r| ==> r[i] == rest[i - 1];
      }
    }
  }

  /** A plain match is kept exactly when it starts inside no entry of `w`. */
  lemma {:induction false} KeptMembers(s: string, w: seq<Span>, hits: seq<Hit>, h: Hit)
    requires HitsInRange(s, hits) && h.start < h.end <= |s|
    ensures PlainSpan(s, h) in Kept(s, w, hits) <==> h in hits && !Overlaps(w, h.start)
    decreases |hits|
  {
    if hits != [] {
      var tail := hits[1..];
      assert HitsInRange(s, tail) by {
        assert forall i :: 0 <= i < |tail| ==> tail[i] == hits[i + 1];
      }
      assert h in hits <==> h == hits[0] || h in tail;
      KeptMembers(s, w, tail, h);
    }
  }

  /** An `@`-headed stretch without a further `@` ends by the start of any `@`-headed
      stretch that starts after it. */
  lemma AtSpansDisjoint(s: string, a: Span, b: Span)
    requires AtSpan(s, a) && AtSpan(s, b) && a.start < b.start
    ensures a.end <= b.start
  {
  }

  /** The plain matches are `@`-headed and follow one another. */
  lemma GreedyHitsShape(s: string)
    ensures HitsInRange(s, GreedyHitsFrom(s, 0)) && HitsOrdered(GreedyHitsFrom(s, 0))
    ensures forall i :: 0 <= i < |GreedyHitsFrom(s, 0)| ==> AtHit(s, GreedyHitsFrom(s, 0)[i])
  {
    var hits := GreedyHitsFrom(s, 0);
    forall i | 0 <= i < |hits| ensures AtHit(s, hits[i]) {
      forall k | hits[i].start < k < hits[i].end ensures s[k] != '@' {
        assert PlainNameChar(s[k]);
      }
    }
  }

  /** Every kept entry is `@`-headed, carries no id and starts inside no first-pass
      entry. */
  lemma KeptEntry(s: string, m: Span)
    requires m in KeptFrom(s, WithIdSpans(s), 0)
    ensures AtSpan(s, m) && m.userId.None? && !Overlaps(WithIdSpans(s), m.start)
  {
    var hits := GreedyHitsFrom(s, 0);
    GreedyHitsShape(s);
    KeptSource(s, WithIdSpans(s), hits, m);
    var i :| 0 <= i < |hits| && m.start == hits[i].start && m.end == hits[i].end
             && !Overlaps(WithIdSpans(s), hits[i].start);
    assert AtHit(s, hits[i]);
  }

  /** Two runs of entries that each follow one another, where no entry of the second
      starts inside one of the first, start at distinct offsets. */
  lemma ConcatDistinctStarts(w: seq<Span>, k: seq<Span>)
    requires forall i :: 0 <= i < |w| ==> w[i].start < w[i].end
    requires forall i :: 0 <= i < |k| ==> k[i].start < k[i].end && !Overlaps(w, k[i].start)
    requires SpansOrdered(w) && SpansOrdered(k)
    ensures DistinctStarts(w + k)
  {
    var c := w + k;
    forall i, j | 0 <= i < j < |c| ensures c[i].start != c[j].start {
      if j < |w| {
        assert c[i] == w[i] && c[j] == w[j];
      } else if i >= |w| {
        assert c[i] == k[i - |w|] && c[j] == k[j - |w|];
      } else {
        assert c[i] == w[i] && c[j] == k[j - |w|];
      }
    }
  }

  /** The collected entries are `@`-headed and start at distinct offsets. */
  lemma CollectedShape(s: string)
    ensures forall i :: 0 <= i < |Collected(s)| ==> AtSpan(s, Collected(s)[i])
    ensures DistinctStarts(Collected(s))
  {
    var w := WithIdSpans(s);
    var kept := KeptFrom(s, w, 0);
    WithIdShape(s);
    GreedyHitsShape(s);
    KeptOrdered(s, w, GreedyHitsFrom(s, 0), 0);
    forall i | 0 <= i < |kept| ensures AtSpan(s, kept[i]) && !Overlaps(w, kept[i].start) {
      KeptEntry(s, kept[i]);
    }
    ConcatDistinctStarts(w, kept);
    var c := Collected(s);
    forall i | 0 <= i < |c| ensures AtSpan(s, c[i]) {
      if i >= |w| {
        assert c[i] == kept[i - |w|];
      } else {
        assert c[i] == w[i];
      }
    }
  }

  /** The `mentions` array after `mentions.sort((a, b) => a.start - b.start)`. */
  function SortedSpans(s: string): seq<Span> {
    SortBy(Collected(s), SpanStart)
  }

  /** After sorting, each entry ends by the start of the next. */
  lemma SortedSpansOrdered(s: string)
    ensures forall i :: 0 <= i < |SortedSpans(s)| ==> AtSpan(s, SortedSpans(s)[i])
    ensures forall i :: 0 <= i < |SortedSpans(s)| - 1 ==> SortedSpans(s)[i].end <= SortedSpans(s)[i + 1].start
  {
    var c, r := Collected(s), SortedSpans(s);
    CollectedShape(s);
    forall i | 0 <= i < |r| ensures AtSpan(s, r[i]) {
      var p := SortedOrigin(s, i);
    }
    DistinctStartsNoDuplicates(c);
    PermutationNoDuplicates(c, r);
    forall i | 0 <= i < |r| - 1 ensures r[i].end <= r[i + 1].start {
      var p := SortedOrigin(s, i);
      var q := SortedOrigin(s, i + 1);
      assert r[i] != r[i + 1];
      assert SpanStart(r[i]) <= SpanStart(r[i + 1]);
      AtSpansDisjoint(s, r[i], r[i + 1]);
    }
  }

  /** Where an entry of the sorted list sits in the collected one. */
  lemma SortedOrigin(s: string, i: nat) returns (p: nat)
    requires i < |SortedSpans(s)|
    ensures p < |Collected(s)| && Collected(s)[p] == SortedSpans(s)[i]
  {
    var r := SortedSpans(s);
    assert r[i] in multiset(r);
    p :| p < |Collected(s)| && Collected(s)[p] == r[i];
  }

  lemma DistinctStartsNoDuplicates(ms: seq<Span>)
    requires DistinctStarts(ms)
    ensures NoDuplicates(ms)
  {
    forall i, j | 0 <= i < j < |ms| ensures ms[i] != ms[j] {
      assert ms[i].start != ms[j].start;
    }
  }

  // ----- cutting the content -----

  /** A stretch of text between entries, or an entry. */
  datatype Segment = Gap(text: string) | At(span: Span)

  /** The entries lie in the content, the first starts at or after `last`, and each
      ends by the start of the next. */
  predicate Ordered(s: string, sp: seq<Span>, last: nat) {
    && last <= |s|
    && (forall i :: 0 <= i < |sp| ==> sp[i].start < sp[i].end <= |s|)
    && (|sp| > 0 ==> last <= sp[0].start)
    && (forall i :: 0 <= i < |sp| - 1 ==> sp[i].end <= sp[i + 1].start)
  }

  lemma OrderedTail(s: string, sp: seq<Span>, last: nat)
    requires Ordered(s, sp, last) && sp != []
    ensures Ordered(s, sp[1..], sp[0].end)
  {
    assert forall i :: 0 <= i < |sp| - 1 ==> sp[1..][i] == sp[i + 1];
  }

  /** The cut of `s[last..]` at the entries `sp`: before each entry the text since the
      previous one when there is any, the entry, and after the last entry the rest
      of the content when there is any. */
  function Layout(s: string, sp: seq<Span>, last: nat): (r: seq<Segment>)
    requires Ordered(s, sp, last)
    decreases |sp|
  {
    if sp == [] then (if last < |s| then [Gap(s[last..])] else [])
    else
      OrderedTail(s, sp, last);
      var rest := [At(sp[0])] + Layout(s, sp[1..], sp[0].end);
      if sp[0].start > last then [Gap(s[last..sp[0].start])] + rest else rest
  }

  /** The source text a segment stands for. */
  function SegmentText(s: string, seg: Segment): string {
    match seg
    case Gap(t) => t
    case At(m) => if m.start <= m.end <= |s| then s[m.start..m.end] else ""
  }

  function Concat(s: string, segs: seq<Segment>): string {
    if segs == [] then "" else SegmentText(s, segs[0]) + Concat(s, segs[1..])
  }

  /** The entries of a cut, in order. */
  function EntriesOf(segs: seq<Segment>): seq<Span> {
    if segs == [] then []
    else (if segs[0].At? then [segs[0].span] else []) + EntriesOf(segs[1..])
  }

  predicate NoEmptyGap(segs: seq<Segment>) {
    forall i :: 0 <= i < |segs| && segs[i].Gap? ==> segs[i].text != ""
  }

  /** Put back together, the pieces of a cut give the text that was cut. */
  lemma {:induction false} LayoutCovers(s: string, sp: seq<Span>, last: nat)
    requires Ordered(s, sp, last)
    ensures Concat(s, Layout(s, sp, last)) == s[last..]
    decreases |sp|
  {
    var r := Layout(s, sp, last);
    if sp == [] {
      if last < |s| {
        assert r[1..] == [];
        AppendEmpty(s[last..]);
      }
    } else {
      var m := sp[0];
      OrderedTail(s, sp, last);
      var tail := Layout(s, sp[1..], m.end);
      LayoutCovers(s, sp[1..], m.end);
      var rest := [At(m)] + tail;
      assert rest[1..] == tail;
      SliceJoin(s, m.start, m.end);
      if m.start > last {
        assert r[1..] == rest;
        SliceJoin(s, last, m.start);
      }
    }
  }

  /** A cut holds each entry once, in order. */
  lemma {:induction false} LayoutEntries(s: string, sp: seq<Span>, last: nat)
    requires Ordered(s, sp, last)
    ensures EntriesOf(Layout(s, sp, last)) == sp
    decreases |sp|
  {
    var r := Layout(s, sp, last);
    if sp == [] {
      if last < |s| {
        assert r[1..] == [];
      }
    } else {
      var m := sp[0];
      OrderedTail(s, sp, last);
      var tail := Layout(s, sp[1..], m.end);
      LayoutEntries(s, sp[1..], m.end);
      var rest := [At(m)] + tail;
      assert rest[1..] == tail;
      if m.start > last {
        assert r[1..] == rest;
      }
      assert [m] + sp[1..] == sp;
    }
  }

  /** A cut holds no empty text. */
  lemma {:induction false} LayoutNoEmptyGap(s: string, sp: seq<Span>, last: nat)
    requires Ordered(s, sp, last)
    ensures NoEmptyGap(Layout(s, sp, last))
    decreases |sp|
  {
    if sp != [] {
      var m := sp[0];
      OrderedTail(s, sp, last);
      var tail := Layout(s, sp[1..], m.end);
      LayoutNoEmptyGap(s, sp[1..], m.end);
      var rest := [At(m)] + tail;
      assert forall i :: 1 <= i < |rest| ==> rest[i] == tail[i - 1];
      if m.start > last {
        var r := [Gap(s[last..m.start])] + rest;
        assert forall i :: 1 <= i < |r| ==> r[i] == rest[i - 1];
      }
    }
  }

  // ----- resolving an entry -----

  /** The part pushed for one entry: the member is looked up by id when the entry has
      one and then, failing that, by name or email; the member's name is shown when
      it has a non-empty one, and the entry's id is kept when it has one. */
  function MentionPart(m: Span, members: seq<Member>): (r: ContentPart)
    ensures r.Mention?
    ensures m.userId.Some? && m.userId.value != "" ==> r.userId == m.userId
  {
    var hasId := m.userId.Some? && m.userId.value != "";
    var byId := if hasId then FindById(members, m.userId.value) else None;
    var member := if byId.Some? then byId else FindByName(members, m.name);
    var name := if member.Some? && member.value.name.Some? && member.value.name.value != ""
                then member.value.name.value else m.name;
    var userId := if hasId then m.userId else if member.Some? then Some(member.value.userId) else None;
    Mention(name, userId)
  }

  /** An entry with an id keeps it, and shows the name of the first member with that
      id when there is one with a non-empty name; an entry without an id takes the
      id of a member named by it, and shows just its own name when no member is
      named by it. Any name shown that is not the entry's own is a member's. */
  lemma MentionPartResolution(m: Span, members: seq<Member>)
    ensures var r := MentionPart(m, members);
      && r.Mention?
      && (m.userId.Some? && m.userId.value != "" ==> r.userId == m.userId)
      && (m.userId.Some? && m.userId.value != "" ==>
            forall i :: 0 <= i < |members| && members[i].userId == m.userId.value
                        && (forall j :: 0 <= j < i ==> members[j].userId != m.userId.value)
                        && members[i].name.Some? && members[i].name.value != ""
                        ==> r.name == members[i].name.value)
      && ((m.userId.None? || m.userId.value == "") && r.userId.Some? ==>
            exists i :: 0 <= i < |members| && members[i].userId == r.userId.value && NameMatches(members[i], m.name))
      && ((m.userId.None? || m.userId.value == "")
          && (forall i :: 0 <= i < |members| ==> !NameMatches(members[i], m.name))
          ==> r == Mention(m.name, None))
      && (r.name == m.name || exists i :: 0 <= i < |members| && members[i].name == Some(r.name))
  {
    var r := MentionPart(m, members);
    if m.userId.Some? && m.userId.value != "" {
      var id := m.userId.value;
      var byId := FindById(members, id);
      if byId.Some? {
        var k :| 0 <= k < |members| && members[k] == byId.value && byId.value.userId == id
                 && forall j :: 0 <= j < k ==> members[j].userId != id;
        forall i | 0 <= i < |members| && members[i].userId == id
                   && (forall j :: 0 <= j < i ==> members[j].userId != id)
          ensures i == k
        {
        }
      }
    }
  }

  // ----- the parts -----

  function PartOf(seg: Segment, members: seq<Member>): ContentPart {
    match seg
    case Gap(t) => Text(t)
    case At(m) => MentionPart(m, members)
  }

  function PartsOf(segs: seq<Segment>, members: seq<Member>): (r: seq<ContentPart>)
    ensures |r| == |segs|
    ensures forall i :: 0 <= i < |segs| ==> r[i] == PartOf(segs[i], members)
  {
    if segs == [] then [] else [PartOf(segs[0], members)] + PartsOf(segs[1..], members)
  }

  lemma PartsOfAppend(a: seq<Segment>, b: seq<Segment>, members: seq<Member>)
    ensures PartsOf(a + b, members) == PartsOf(a, members) + PartsOf(b, members)
  {
  }

  /** The result of `parseContentWithMentions`: the parts of the cut at the sorted
      entries, or the whole content as one text part when that gives no parts. */
  function ParseContent(s: string, members: seq<Member>): (r: seq<ContentPart>)
    ensures r != []
  {
    SortedSpansLaid(s);
    var parts := PartsOf(Layout(s, SortedSpans(s), 0), members);
    if parts == [] then [Text(s)] else parts
  }

  /** The sorted entries can be cut at. */
  lemma SortedSpansLaid(s: string)
    ensures Ordered(s, SortedSpans(s), 0)
  {
    SortedSpansOrdered(s);
  }

  /** Every entry takes up at least one character. */
  lemma {:induction false} OrderedCount(s: string, sp: seq<Span>, last: nat)
    requires Ordered(s, sp, last)
    ensures |sp| <= |s| - last
    decreases |sp|
  {
    if sp != [] {
      OrderedTail(s, sp, last);
      OrderedCount(s, sp[1..], sp[0].end);
    }
  }

  /** The text segment pushed before an entry, if any. */
  function GapBefore(s: string, m: Span, last: nat): seq<Segment>
    requires last <= m.start <= |s|
  {
    if m.start > last then [Gap(s[last..m.start])] else []
  }

  /** One step of the cut: the text before the next entry, the entry, and the cut
      of what follows it. */
  lemma LayoutStep(s: string, sp: seq<Span>, i: nat, last: nat)
    requires i < |sp| && Ordered(s, sp[i..], last)
    ensures sp[i].start <= |s| && last <= sp[i].start
    ensures Ordered(s, sp[i + 1..], sp[i].end)
    ensures Layout(s, sp[i..], last)
            == (GapBefore(s, sp[i], last) + [At(sp[i])]) + Layout(s, sp[i + 1..], sp[i].end)
  {
    var here := sp[i..];
    assert here[0] == sp[i] && here[1..] == sp[i + 1..];
    OrderedTail(s, here, last);
    AppendAssoc(GapBefore(s, sp[i], last), [At(sp[i])], Layout(s, sp[i + 1..], sp[i].end));
  }

  /** The parts one step of the cut contributes. */
  lemma StepParts(s: string, m: Span, last: nat, members: seq<Member>)
    requires last <= m.start <= |s|
    ensures PartsOf(GapBefore(s, m, last) + [At(m)], members)
            == (if m.start > last then [Text(s[last..m.start])] + [MentionPart(m, members)]
                else [MentionPart(m, members)])
  {
  }

  /** `parseContentWithMentions`: collect and sort the entries, cut the content at
      them, and fall back to one text part holding the whole content. */
  method ParseContentWithMentions(content: string, members: seq<Member>) returns (parts: seq<ContentPart>)
    ensures parts == ParseContent(content, members)
  {
    var mentions := CollectMentions(content);
    mentions := SortBy(mentions, SpanStart);
    SortedSpansLaid(content);
    parts := BuildParts(content, mentions, members);
    if |parts| == 0 {
      parts := [Text(content)];
    }
  }

  /** The `for (const mention of mentions)` loop and the remaining text: the text
      before each entry when there is any, then its mention part. */
  method BuildParts(content: string, mentions: seq<Span>, members: seq<Member>) returns (parts: seq<ContentPart>)
    requires Ordered(content, mentions, 0)
    ensures parts == PartsOf(Layout(content, mentions, 0), members)
  {
    ghost var whole := PartsOf(Layout(content, mentions, 0), members);
    parts := [];
    var lastIndex: nat := 0;
    for i := 0 to |mentions|
      invariant Ordered(content, mentions[i..], lastIndex)
      invariant parts + PartsOf(Layout(content, mentions[i..], lastIndex), members) == whole
    {
      var mention := mentions[i];
      BuildStep(content, mentions, i, lastIndex, members, parts, whole);
      if mention.start > lastIndex {
        parts := parts + [Text(content[lastIndex..mention.start])];
      }
      var part := ResolveMention(mention, members);
      parts := parts + [part];
      lastIndex := mention.end;
    }
    assert mentions[|mentions|..] == [];
    BuildEnd(content, lastIndex, members, parts, whole);
    if lastIndex < |content| {
      parts := parts + [Text(content[lastIndex..])];
    }
  }

  /** After the last entry only the text after it is left to push. */
  lemma BuildEnd(content: string, last: nat, members: seq<Member>, p0: seq<ContentPart>, whole: seq<ContentPart>)
    requires Ordered(content, [], last)
    requires p0 + PartsOf(Layout(content, [], last), members) == whole
    ensures (if last < |content| then p0 + [Text(content[last..])] else p0) == whole
  {
    if last >= |content| {
      AppendEmpty(p0);
    }
  }

  /** One turn of the loop: the text before the entry and the entry's part, pushed
      after the parts so far, leave the parts of the rest of the cut to come. */
  lemma BuildStep(content: string, mentions: seq<Span>, i: nat, last: nat, members: seq<Member>,
                  p0: seq<ContentPart>, whole: seq<ContentPart>)
    requires i < |mentions| && Ordered(content, mentions[i..], last)
    requires p0 + PartsOf(Layout(content, mentions[i..], last), members) == whole
    ensures last <= mentions[i].start <= |content|
    ensures Ordered(content, mentions[i + 1..], mentions[i].end)
    ensures var m := mentions[i];
      (if m.start > last then p0 + [Text(content[last..m.start])] else p0) + [MentionPart(m, members)]
      + PartsOf(Layout(content, mentions[i + 1..], m.end), members) == whole
  {
    var m := mentions[i];
    LayoutStep(content, mentions, i, last);
    var seg := GapBefore(content, m, last) + [At(m)];
    var tail := Layout(content, mentions[i + 1..], m.end);
    StepParts(content, m, last, members);
    if m.start > last {
      AppendAssoc(p0, [Text(content[last..m.start])], [MentionPart(m, members)]);
    }
    PartsOfAppend(seg, tail, members);
    AppendAssoc(p0, PartsOf(seg, members), PartsOf(tail, members));
  }

  /** The member lookup for one entry: by id first when it has one, then by name or
      email. */
  method ResolveMention(mention: Span, members: seq<Member>) returns (part: ContentPart)
    ensures part == MentionPart(mention, members)
  {
    var member: Option<Member> := None;
    if mention.userId.Some? && mention.userId.value != "" {
      member := FindById(members, mention.userId.value);
    }
    if member.None? {
      member := FindByName(members, mention.name);
    }
    var name := if member.Some? && member.value.name.Some? && member.value.name.value != ""
                then member.value.name.value else mention.name;
    var userId := if mention.userId.Some? && mention.userId.value != "" then mention.userId
                  else if member.Some? then Some(member.value.userId) else None;
    part := Mention(name, userId);
  }

  // ----- properties of the result -----

  /** The mention parts of a list of parts, in order. */
  function MentionsOf(parts: seq<ContentPart>): seq<ContentPart> {
    if parts == [] then []
    else (if parts[0].Mention? then [parts[0]] else []) + MentionsOf(parts[1..])
  }

  /** The mention parts of a run of entries. */
  function ResolveAll(sp: seq<Span>, members: seq<Member>): seq<ContentPart> {
    if sp == [] then [] else [MentionPart(sp[0], members)] + ResolveAll(sp[1..], members)
  }

  lemma {:induction false} MentionsOfParts(segs: seq<Segment>, members: seq<Member>)
    ensures MentionsOf(PartsOf(segs, members)) == ResolveAll(EntriesOf(segs), members)
    decreases |segs|
  {
    if segs != [] {
      MentionsOfParts(segs[1..], members);
      var ps := PartsOf(segs, members);
      var rest := EntriesOf(segs[1..]);
      assert ps[1..] == PartsOf(segs[1..], members);
      if segs[0].At? {
        assert ps[0] == MentionPart(segs[0].span, members);
        assert ([segs[0].span] + rest)[1..] == rest;
      } else {
        assert ps[0].Text?;
        assert [] + rest == rest;
        assert [] + MentionsOf(ps[1..]) == MentionsOf(ps[1..]);
      }
    }
  }

  /** For non-empty content the parts are those of a cut that puts the content back
      together, holds every entry once in start order, and holds no empty text; empty
      content gives one empty text part. */
  lemma ParseCoversContent(s: string, members: seq<Member>)
    ensures s == "" ==> ParseContent(s, members) == [Text("")]
    ensures s != "" ==>
              exists segs :: ParseContent(s, members) == PartsOf(segs, members)
                             && Concat(s, segs) == s && EntriesOf(segs) == SortedSpans(s) && NoEmptyGap(segs)
  {
    SortedSpansLaid(s);
    var segs := Layout(s, SortedSpans(s), 0);
    LayoutCovers(s, SortedSpans(s), 0);
    LayoutEntries(s, SortedSpans(s), 0);
    LayoutNoEmptyGap(s, SortedSpans(s), 0);
    assert s[0..] == s;
    OrderedCount(s, SortedSpans(s), 0);
  }

  /** The mention parts of the result are the entries' parts, in start order. */
  lemma ParseMentions(s: string, members: seq<Member>)
    ensures MentionsOf(ParseContent(s, members)) == ResolveAll(SortedSpans(s), members)
  {
    var sp := SortedSpans(s);
    SortedSpansLaid(s);
    LaidMentions(s, sp, members);
    if PartsOf(Layout(s, sp, 0), members) == [] {
      assert MentionsOf([Text(s)]) == [];
    }
  }

  /** `ParseMentions` for any entries the content can be cut at. */
  lemma LaidMentions(s: string, sp: seq<Span>, members: seq<Member>)
    requires Ordered(s, sp, 0)
    ensures MentionsOf(PartsOf(Layout(s, sp, 0), members)) == ResolveAll(sp, members)
  {
    LayoutEntries(s, sp, 0);
    MentionsOfParts(Layout(s, sp, 0), members);
  }

  /** No text part is empty, unless the content is. */
  lemma ParseNoEmptyText(s: string, members: seq<Member>)
    ensures forall i :: 0 <= i < |ParseContent(s, members)| && ParseContent(s, members)[i].Text?
              ==> ParseContent(s, members)[i].content != "" || s == ""
  {
    SortedSpansLaid(s);
    LaidNoEmptyText(s, SortedSpans(s), members);
  }

  /** `ParseNoEmptyText` for any entries the content can be cut at. */
  lemma LaidNoEmptyText(s: string, sp: seq<Span>, members: seq<Member>)
    requires Ordered(s, sp, 0)
    ensures forall i :: 0 <= i < |PartsOf(Layout(s, sp, 0), members)| && PartsOf(Layout(s, sp, 0), members)[i].Text?
              ==> PartsOf(Layout(s, sp, 0), members)[i].content != ""
  {
    var segs := Layout(s, sp, 0);
    LayoutNoEmptyGap(s, sp, 0);
    var parts := PartsOf(segs, members);
    forall i | 0 <= i < |parts| && parts[i].Text? ensures parts[i].content != "" {
      assert parts[i] == PartOf(segs[i], members);
    }
  }

  /** Content without an `@` comes back as one text part. */
  lemma NoAtIsText(s: string, members: seq<Member>)
    requires forall k :: 0 <= k < |s| ==> s[k] != '@'
    ensures ParseContent(s, members) == [Text(s)]
  {
    WithIdFromNoAt(s, 0);
    GreedyHitsFromNoAt(s, 0);
    assert Collected(s) == [];
    assert SortedSpans(s) == [];
    assert s[0..] == s;
  }

  /** A plain `@name` match becomes an entry exactly when it starts inside no
      `@name[id]` match. */
  lemma PlainMentionKept(s: string, h: Hit)
    requires h in GreedyHitsFrom(s, 0)
    ensures h.start < h.end <= |s|
    ensures PlainSpan(s, h) in Collected(s) <==> !Overlaps(WithIdSpans(s), h.start)
  {
    GreedyHitsShape(s);
    WithIdShape(s);
    KeptMembers(s, WithIdSpans(s), GreedyHitsFrom(s, 0), h);
    assert PlainSpan(s, h) !in WithIdSpans(s);
  }
}
