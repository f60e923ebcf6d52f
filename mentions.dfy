/** Comment mentions (src/features/comments/utils/mention-utils.ts). The regular
    expressions of the source are written out as scanners over the string:

    - `/@[\w\s.-]+?\[([a-zA-Z0-9]+)\]/g` and `/@([^@\[\]]+?)\[([a-zA-Z0-9]+)\]/g`: at an
      `@`, the lazy name run stops at the first character outside its class; since
      `[` is outside both classes, the match exists exactly when that character is
      `[`, the name is non-empty, and a non-empty alphanumeric run follows, closed by `]`.
    - `/@([\w\s]+?)(?=\s|$|@)/g`: the shortest non-empty `[\w\s]` run after the `@`
      that is followed by the end, a whitespace character or an `@` (not consumed).
    - `/@([\w.-]+)/g`: the longest non-empty `[\w.-]` run after the `@`.

    A global regex resumes after the end of the previous match, and after a failed
    attempt at one position it tries the next. */
module Mentions {
  import opened Common
  import opened Sorting

  /** A workspace member; `name` and `email` may be absent. */
  datatype Member = Member(userId: string, name: Option<string>, email: Option<string>)

  // ----- character classes -----

  /** `[\w\s.-]` */
  predicate TiptapNameChar(c: char) { IsWordChar(c) || IsSpace(c) || c == '.' || c == '-' }

  /** `[^@\[\]]` */
  predicate WithIdNameChar(c: char) { c != '@' && c != '[' && c != ']' }

  /** `[\w\s]` */
  predicate LooseNameChar(c: char) { IsWordChar(c) || IsSpace(c) }

  /** `[\w.-]` */
  predicate PlainNameChar(c: char) { IsWordChar(c) || c == '.' || c == '-' }

  /** The end of the longest run of `cls` characters starting at `i`. */
  function RunEnd(s: string, i: nat, cls: char -> bool): (j: nat)
    requires i <= |s|
    ensures i <= j <= |s|
    ensures forall k :: i <= k < j ==> cls(s[k])
    ensures j < |s| ==> !cls(s[j])
    decreases |s| - i
  {
    if i < |s| && cls(s[i]) then RunEnd(s, i + 1, cls) else i
  }

  /** A run known to stop at `j` is found to stop there. */
  lemma {:induction false} RunEndAt(s: string, i: nat, j: nat, cls: char -> bool)
    requires i <= j <= |s|
    requires forall k :: i <= k < j ==> cls(s[k])
    requires j < |s| ==> !cls(s[j])
    ensures RunEnd(s, i, cls) == j
    decreases j - i
  {
    if i < j {
      RunEndAt(s, i + 1, j, cls);
    }
  }

  // ----- `@name[id]` -----

  /** A match of `@name[id]`: the `@` at `start`, the `[` at `nameEnd`, the `]` at
      `end - 1`. */
  datatype Bracketed = Bracketed(start: nat, nameEnd: nat, end: nat)

  predicate ValidBracketed(s: string, b: Bracketed, nameChar: char -> bool) {
    && b.start + 2 <= b.nameEnd && b.nameEnd + 2 < b.end <= |s|
    && s[b.start] == '@'
    && (forall k :: b.start < k < b.nameEnd ==> nameChar(s[k]))
    && s[b.nameEnd] == '['
    && (forall k :: b.nameEnd < k < b.end - 1 ==> IsAlnum(s[k]))
    && s[b.end - 1] == ']'
  }

  /** The name group of a match. */
  function NameOf(s: string, b: Bracketed): string
    requires b.start < b.nameEnd <= |s|
  {
    s[b.start + 1..b.nameEnd]
  }

  /** The id group of a match. */
  function IdOf(s: string, b: Bracketed): string
    requires b.nameEnd + 1 < b.end <= |s|
  {
    s[b.nameEnd + 1..b.end - 1]
  }

  /** The match attempt at position `p`. */
  function BracketedAt(s: string, p: nat, nameChar: char -> bool): (r: Option<Bracketed>)
    requires p < |s|
    ensures r.Some? ==> r.value.start == p && ValidBracketed(s, r.value, nameChar)
  {
    if s[p] != '@' then None
    else
      var q := RunEnd(s, p + 1, nameChar);
      if q >= p + 2 && q < |s| && s[q] == '[' then
        var e := RunEnd(s, q + 1, IsAlnum);
        if e > q + 1 && e < |s| && s[e] == ']' then Some(Bracketed(p, q, e + 1)) else None
      else None
  }

  /** Every match a global search finds from position `from` on, in order. */
  function BracketedFrom(s: string, from: nat, nameChar: char -> bool): (r: seq<Bracketed>)
    requires from <= |s|
    ensures forall i :: 0 <= i < |r| ==> ValidBracketed(s, r[i], nameChar) && from <= r[i].start
    ensures forall i, j :: 0 <= i < j < |r| ==> r[i].end <= r[j].start
    decreases |s| - from
  {
    if from == |s| then []
    else
      match BracketedAt(s, from, nameChar)
      case Some(b) =>
        var rest := BracketedFrom(s, b.end, nameChar);
        assert forall i :: 0 < i < |rest| + 1 ==> ([b] + rest)[i] == rest[i - 1];
        [b] + rest
      case None => BracketedFrom(s, from + 1, nameChar)
  }

  /** A search over a stretch with no `@` finds nothing. */
  lemma {:induction false} BracketedFromNoAt(s: string, from: nat, nameChar: char -> bool)
    requires from <= |s|
    requires forall k :: from <= k < |s| ==> s[k] != '@'
    ensures BracketedFrom(s, from, nameChar) == []
    decreases |s| - from
  {
    if from < |s| {
      BracketedFromNoAt(s, from + 1, nameChar);
    }
  }

  // ----- plain mentions -----

  /** A plain match: the `@` at `start`, the name up to `end`. */
  datatype Hit = Hit(start: nat, end: nat)

  /** `(?=\s|$|@)` at position `j`. */
  predicate LookaheadOk(s: string, j: nat)
    requires j <= |s|
  {
    j == |s| || IsSpace(s[j]) || s[j] == '@'
  }

  /** The end of the lazy `[\w\s]+?` run that started before `j`, extended from `j`. */
  function LazyNameEnd(s: string, j: nat): (r: Option<nat>)
    requires j <= |s|
    ensures r.Some? ==> j < r.value <= |s| && LookaheadOk(s, r.value)
    ensures r.Some? ==> forall k :: j <= k < r.value ==> LooseNameChar(s[k])
    ensures r.Some? ==> forall k :: j < k < r.value ==> !LookaheadOk(s, k)
    decreases |s| - j
  {
    if j < |s| && LooseNameChar(s[j]) then
      if LookaheadOk(s, j + 1) then Some(j + 1) else LazyNameEnd(s, j + 1)
    else None
  }

  /** Every `/@([\w\s]+?)(?=\s|$|@)/g` match from `from` on, in order. */
  function LooseHitsFrom(s: string, from: nat): (r: seq<Hit>)
    requires from <= |s|
    ensures forall i :: 0 <= i < |r| ==> from <= r[i].start < r[i].end <= |s| && s[r[i].start] == '@'
    decreases |s| - from
  {
    if from == |s| then []
    else if s[from] == '@' && LazyNameEnd(s, from + 1).Some? then
      var e := LazyNameEnd(s, from + 1).value;
      [Hit(from, e)] + LooseHitsFrom(s, e)
    else LooseHitsFrom(s, from + 1)
  }

  /** Every `/@([\w.-]+)/g` match from `from` on, in order. The name holds no `@`. */
  function GreedyHitsFrom(s: string, from: nat): (r: seq<Hit>)
    requires from <= |s|
    ensures forall i :: 0 <= i < |r| ==>
              from <= r[i].start && r[i].start + 1 < r[i].end <= |s| && s[r[i].start] == '@'
              && forall k :: r[i].start < k < r[i].end ==> PlainNameChar(s[k])
    ensures forall i, j :: 0 <= i < j < |r| ==> r[i].end <= r[j].start
    decreases |s| - from
  {
    if from == |s| then []
    else if s[from] == '@' && RunEnd(s, from + 1, PlainNameChar) > from + 1 then
      var e := RunEnd(s, from + 1, PlainNameChar);
      var rest := GreedyHitsFrom(s, e);
      assert forall i :: 0 < i < |rest| + 1 ==> ([Hit(from, e)] + rest)[i] == rest[i - 1];
      [Hit(from, e)] + rest
    else GreedyHitsFrom(s, from + 1)
  }

  /** A search over a stretch with no `@` finds nothing. */
  lemma {:induction false} GreedyHitsFromNoAt(s: string, from: nat)
    requires from <= |s|
    requires forall k :: from <= k < |s| ==> s[k] != '@'
    ensures GreedyHitsFrom(s, from) == []
    decreases |s| - from
  {
    if from < |s| {
      GreedyHitsFromNoAt(s, from + 1);
    }
  }

  // ----- member lookup -----

  /** `m.name?.toLowerCase() === x.toLowerCase() || m.email?.toLowerCase() === x.toLowerCase()` */
  predicate NameMatches(m: Member, x: string) {
    (m.name.Some? && EqualsIgnoreCase(m.name.value, x)) || (m.email.Some? && EqualsIgnoreCase(m.email.value, x))
  }

  /** `members.find(m => NameMatches(m, x))`: the first member whose name or email is
      `x` up to letter case. */
  function FindByName(members: seq<Member>, x: string): (r: Option<Member>)
    ensures r.None? <==> forall i :: 0 <= i < |members| ==> !NameMatches(members[i], x)
    ensures r.Some? ==> exists i :: 0 <= i < |members| && members[i] == r.value && NameMatches(r.value, x)
                          && forall j :: 0 <= j < i ==> !NameMatches(members[j], x)
  {
    if members == [] then None
    else if NameMatches(members[0], x) then Some(members[0])
    else
      var r := FindByName(members[1..], x);
      assert forall i :: 0 < i < |members| ==> members[i] == members[1..][i - 1];
      r
  }

  /** `members.find(m => m.userId === id)`. */
  function FindById(members: seq<Member>, id: string): (r: Option<Member>)
    ensures r.None? <==> forall i :: 0 <= i < |members| ==> members[i].userId != id
    ensures r.Some? ==> exists i :: 0 <= i < |members| && members[i] == r.value && r.value.userId == id
                          && forall j :: 0 <= j < i ==> members[j].userId != id
  {
    if members == [] then None
    else if members[0].userId == id then Some(members[0])
    else
      var r := FindById(members[1..], id);
      assert forall i :: 0 < i < |members| ==> members[i] == members[1..][i - 1];
      r
  }

  // ----- extractMentions -----

  /** The ids of a run of `@name[id]` matches. */
  function IdsOf(s: string, bs: seq<Bracketed>): (r: seq<string>)
    requires forall i :: 0 <= i < |bs| ==> bs[i].nameEnd + 1 < bs[i].end <= |s|
    ensures |r| == |bs|
    ensures forall i :: 0 <= i < |bs| ==> r[i] == IdOf(s, bs[i])
  {
    if bs == [] then [] else [IdOf(s, bs[0])] + IdsOf(s, bs[1..])
  }

  /** The ids of the `@name[id]` mentions of the content, in order. */
  function BracketIds(s: string): seq<string> {
    IdsOf(s, BracketedFrom(s, 0, TiptapNameChar))
  }

  /** `match[1]?.trim()`: the trimmed name of a plain match. */
  function HitName(s: string, h: Hit): string
    requires h.start < h.end <= |s|
  {
    Trim(s[h.start + 1..h.end])
  }

  /** Some member named by some plain match has user id `x`. */
  predicate NamedByHit(s: string, hits: seq<Hit>, members: seq<Member>, x: string)
    requires forall i :: 0 <= i < |hits| ==> hits[i].start < hits[i].end <= |s|
  {
    exists i, j :: 0 <= i < |members| && 0 <= j < |hits| && members[i].userId == x
                   && NameMatches(members[i], HitName(s, hits[j]))
  }

  /** What one plain match contributes: the trimmed name, when non-empty, resolved to
      the first member with that name or email. */
  function ResolveHit(s: string, h: Hit, members: seq<Member>): seq<string>
    requires h.start < h.end <= |s|
  {
    var name := HitName(s, h);
    if name != "" then
      match FindByName(members, name)
      case Some(m) => [m.userId]
      case None => []
    else []
  }

  /** The user ids the plain matches resolve to, in order (repeats included). */
  function ResolvedIds(s: string, hits: seq<Hit>, members: seq<Member>): seq<string>
    requires forall i :: 0 <= i < |hits| ==> hits[i].start < hits[i].end <= |s|
  {
    if hits == [] then [] else ResolveHit(s, hits[0], members) + ResolvedIds(s, hits[1..], members)
  }

  /** The ids of the `@name[id]` matches from `from` on. */
  function BracketIdsFrom(s: string, from: nat): seq<string>
    requires from <= |s|
  {
    IdsOf(s, BracketedFrom(s, from, TiptapNameChar))
  }

  /** The ids the plain matches from `from` on resolve to. */
  function PlainIdsFrom(s: string, from: nat, members: seq<Member>): seq<string>
    requires from <= |s|
  {
    ResolvedIds(s, LooseHitsFrom(s, from), members)
  }

  /** The result of `extractMentions`: the bracketed ids, then the resolved plain
      mentions, each id once. */
  function MentionedIds(s: string, members: seq<Member>): (r: seq<string>)
    ensures forall x :: x in r <==> x in BracketIds(s) || x in ResolvedIds(s, LooseHitsFrom(s, 0), members)
  {
    AddAll(AddAll([], BracketIds(s)), ResolvedIds(s, LooseHitsFrom(s, 0), members))
  }

  /** `extractMentions`: the two `while (regex.exec(...))` loops. */
  method ExtractMentions(content: string, members: seq<Member>) returns (mentionedIds: seq<string>)
    ensures mentionedIds == MentionedIds(content, members)
  {
    mentionedIds := CollectBracketIds(content);
    mentionedIds := CollectPlainIds(content, members, mentionedIds);
  }

  lemma AddAllCons(acc: seq<string>, x: string, rest: seq<string>)
    ensures AddAll(acc, [x] + rest) == AddAll(SetAdd(acc, x), rest)
  {
    assert ([x] + rest)[0] == x && ([x] + rest)[1..] == rest;
  }

  /** One attempt of the first regex at `pos`: a match contributes its id, which is
      never empty, and the search resumes after it; otherwise it resumes at `pos + 1`. */
  lemma BracketIdsStep(s: string, pos: nat)
    requires pos < |s|
    ensures match BracketedAt(s, pos, TiptapNameChar)
            case Some(b) => b.nameEnd + 1 < b.end <= |s| && IdOf(s, b) != ""
                            && BracketIdsFrom(s, pos) == [IdOf(s, b)] + BracketIdsFrom(s, b.end)
            case None => BracketIdsFrom(s, pos) == BracketIdsFrom(s, pos + 1)
  {
  }

  /** One turn of the first loop, on the ids still to be added. */
  lemma BracketAdvance(s: string, pos: nat, acc: seq<string>)
    requires pos < |s|
    ensures match BracketedAt(s, pos, TiptapNameChar)
            case Some(b) => pos < b.end && b.nameEnd + 1 < b.end <= |s| && IdOf(s, b) != ""
                            && AddAll(acc, BracketIdsFrom(s, pos)) == AddAll(SetAdd(acc, IdOf(s, b)), BracketIdsFrom(s, b.end))
            case None => AddAll(acc, BracketIdsFrom(s, pos)) == AddAll(acc, BracketIdsFrom(s, pos + 1))
  {
    BracketIdsStep(s, pos);
    match BracketedAt(s, pos, TiptapNameChar)
    case Some(b) =>
      AddAllCons(acc, IdOf(s, b), BracketIdsFrom(s, b.end));
    case None =>
  }

  /** One attempt of the second regex at `pos`. */
  lemma PlainIdsStep(s: string, pos: nat, members: seq<Member>)
    requires pos < |s|
    ensures if s[pos] == '@' && LazyNameEnd(s, pos + 1).Some? then
              var e := LazyNameEnd(s, pos + 1).value;
              var name := HitName(s, Hit(pos, e));
              PlainIdsFrom(s, pos, members)
              == (if name != "" && FindByName(members, name).Some? then [FindByName(members, name).value.userId] else [])
                 + PlainIdsFrom(s, e, members)
            else PlainIdsFrom(s, pos, members) == PlainIdsFrom(s, pos + 1, members)
  {
  }

  /** The first loop: push each bracketed id not yet present. */
  method CollectBracketIds(content: string) returns (mentionedIds: seq<string>)
    ensures mentionedIds == AddAll([], BracketIds(content))
  {
    mentionedIds := [];
    var pos := 0;
    while pos < |content|
      invariant 0 <= pos <= |content|
      invariant AddAll(mentionedIds, BracketIdsFrom(content, pos)) == AddAll([], BracketIds(content))
      decreases |content| - pos
    {
      BracketAdvance(content, pos, mentionedIds);
      var m := BracketedAt(content, pos, TiptapNameChar);
      if m.Some? {
        var userId := IdOf(content, m.value);
        if userId != "" && userId !in mentionedIds {
          mentionedIds := mentionedIds + [userId];
        }
        pos := m.value.end;
      } else {
        pos := pos + 1;
      }
    }
  }

  /** The second loop: resolve each plain mention and push its member's id when not
      yet present. */
  method CollectPlainIds(content: string, members: seq<Member>, ids: seq<string>) returns (mentionedIds: seq<string>)
    ensures mentionedIds == AddAll(ids, ResolvedIds(content, LooseHitsFrom(content, 0), members))
  {
    mentionedIds := ids;
    var pos := 0;
    while pos < |content|
      invariant 0 <= pos <= |content|
      invariant AddAll(mentionedIds, PlainIdsFrom(content, pos, members)) == AddAll(ids, PlainIdsFrom(content, 0, members))
      decreases |content| - pos
    {
      PlainIdsStep(content, pos, members);
      if content[pos] == '@' && LazyNameEnd(content, pos + 1).Some? {
        var e := LazyNameEnd(content, pos + 1).value;
        var mentionName := HitName(content, Hit(pos, e));
        if mentionName != "" {
          var member := FindByName(members, mentionName);
          if member.Some? {
            AddAllCons(mentionedIds, member.value.userId, PlainIdsFrom(content, e, members));
            if member.value.userId !in mentionedIds {
              mentionedIds := mentionedIds + [member.value.userId];
            }
          } else {
            assert PlainIdsFrom(content, pos, members) == PlainIdsFrom(content, e, members);
          }
        } else {
          assert PlainIdsFrom(content, pos, members) == PlainIdsFrom(content, e, members);
        }
        pos := e;
      } else {
        pos := pos + 1;
      }
    }
  }

  /** The ids come out once each; the bracketed ids come first, in order of first
      occurrence, and every bracketed id is among them. */
  lemma MentionedIdsShape(s: string, members: seq<Member>)
    ensures NoDuplicates(MentionedIds(s, members))
    ensures var head := AddAll([], BracketIds(s));
      && |head| <= |MentionedIds(s, members)|
      && MentionedIds(s, members)[..|head|] == head
      && (forall x :: x in head <==> x in BracketIds(s))
    ensures forall x :: x in BracketIds(s) ==> x in MentionedIds(s, members)
  {
  }

  /** Every returned id either is the id of a bracketed mention of the content (a
      non-empty alphanumeric string between `[` and `]` right after an `@name`), or
      is the user id of a member whose name or email equals the trimmed text of a
      plain mention, up to letter case. */
  lemma MentionedIdsSources(s: string, members: seq<Member>, x: string)
    requires x in MentionedIds(s, members)
    ensures (exists b :: b in BracketedFrom(s, 0, TiptapNameChar) && x == IdOf(s, b)
               && x != [] && forall k :: 0 <= k < |x| ==> IsAlnum(x[k]))
         || NamedByHit(s, LooseHitsFrom(s, 0), members, x)
  {
    if x in BracketIds(s) {
      BracketIdSource(s, x);
    } else {
      ResolvedIdsSources(s, LooseHitsFrom(s, 0), members, x);
    }
  }

  /** A bracketed id is the alphanumeric id group of one of the matches. */
  lemma BracketIdSource(s: string, x: string)
    requires x in BracketIds(s)
    ensures exists b :: b in BracketedFrom(s, 0, TiptapNameChar) && x == IdOf(s, b)
              && x != [] && forall k :: 0 <= k < |x| ==> IsAlnum(x[k])
  {
    var bs := BracketedFrom(s, 0, TiptapNameChar);
    var i :| 0 <= i < |bs| && IdsOf(s, bs)[i] == x;
    var b := bs[i];
    assert b in bs;
    IdOfAlnum(s, b, TiptapNameChar);
  }

  /** The id group of a match is a non-empty alphanumeric string. */
  lemma IdOfAlnum(s: string, b: Bracketed, nameChar: char -> bool)
    requires ValidBracketed(s, b, nameChar)
    ensures IdOf(s, b) != [] && forall k :: 0 <= k < |IdOf(s, b)| ==> IsAlnum(IdOf(s, b)[k])
  {
    var x := IdOf(s, b);
    forall k | 0 <= k < |x| ensures IsAlnum(x[k]) {
      assert x[k] == s[b.nameEnd + 1 + k];
    }
  }

  lemma {:induction false} ResolvedIdsSources(s: string, hits: seq<Hit>, members: seq<Member>, x: string)
    requires forall i :: 0 <= i < |hits| ==> hits[i].start < hits[i].end <= |s|
    requires x in ResolvedIds(s, hits, members)
    ensures NamedByHit(s, hits, members, x)
    decreases |hits|
  {
    var h := hits[0];
    if x in ResolveHit(s, h, members) {
      var name := HitName(s, h);
      var m := FindByName(members, name).value;
      var i :| 0 <= i < |members| && members[i] == m && NameMatches(m, name);
      assert members[i].userId == x && NameMatches(members[i], HitName(s, hits[0]));
    } else {
      ResolvedIdsSources(s, hits[1..], members, x);
      var i, j :| 0 <= i < |members| && 0 <= j < |hits[1..]| && members[i].userId == x
                  && NameMatches(members[i], HitName(s, hits[1..][j]));
      assert hits[1..][j] == hits[j + 1];
    }
  }

  /** A lone `@name[id]`, with a name of word characters, whitespace, dots and hyphens
      and an alphanumeric id, contributes exactly its id. */
  lemma LoneBracketedMention(name: string, id: string)
    requires name != [] && forall k :: 0 <= k < |name| ==> TiptapNameChar(name[k])
    requires id != [] && forall k :: 0 <= k < |id| ==> IsAlnum(id[k])
    ensures BracketIds("@" + name + "[" + id + "]") == [id]
  {
    var s := "@" + name + "[" + id + "]";
    var q := 1 + |name|;
    var e := q + 1 + |id|;
    LoneLayout(name, id);
    RunEndAt(s, 1, q, TiptapNameChar);
    RunEndAt(s, q + 1, e, IsAlnum);
    var b := Bracketed(0, q, e + 1);
    assert BracketedAt(s, 0, TiptapNameChar) == Some(b);
    assert BracketedFrom(s, 0, TiptapNameChar) == [b] + BracketedFrom(s, e + 1, TiptapNameChar);
    assert IdOf(s, b) == id;
  }

  /** Where the parts of a lone `@name[id]` sit. */
  lemma LoneLayout(name: string, id: string)
    requires forall k :: 0 <= k < |name| ==> TiptapNameChar(name[k])
    requires forall k :: 0 <= k < |id| ==> IsAlnum(id[k])
    ensures var s := "@" + name + "[" + id + "]";
      var q := 1 + |name|;
      var e := q + 1 + |id|;
      && |s| == e + 1 && s[0] == '@' && s[q] == '[' && s[e] == ']'
      && (forall k :: 1 <= k < q ==> TiptapNameChar(s[k]))
      && (forall k :: q < k < e ==> IsAlnum(s[k]))
      && s[q + 1..e] == id
  {
    var s := "@" + name + "[" + id + "]";
    var q := 1 + |name|;
    var e := q + 1 + |id|;
    forall k | 1 <= k < q ensures TiptapNameChar(s[k]) {
      assert s[k] == name[k - 1];
    }
    forall k | q < k < e ensures IsAlnum(s[k]) {
      assert s[k] == id[k - q - 1];
    }
    assert s[q + 1..e] == id;
  }
}
