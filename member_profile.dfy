/** The member profile dialog: which member it shows, the initials and name it
    prints, the role badge, and the counter and arrows that step through the list.
    A missing name, email or role is the empty string. */
module MemberProfile {
  import opened Common
  import Initials

  datatype OrgMember = OrgMember(name: string, email: string, role: string)

  const OwnerStyle: string := "bg-amber-500/10 text-amber-700 border-amber-500/20"
  const AdminStyle: string := "bg-purple-500/10 text-purple-700 border-purple-500/20"
  const ModeratorStyle: string := "bg-blue-500/10 text-blue-700 border-blue-500/20"
  const MemberStyle: string := "bg-slate-500/10 text-slate-700 border-slate-500/20"

  /** `getRoleBadgeStyles`: amber for owners, purple for admins, blue for moderators,
      slate for anyone else; each style belongs to exactly one of these. */
  function RoleBadgeStyle(role: string): (r: string)
    ensures r == OwnerStyle <==> role == "OWNER"
    ensures r == AdminStyle <==> role == "ADMIN"
    ensures r == ModeratorStyle <==> role == "MODERATOR"
    ensures r == MemberStyle <==> role !in {"OWNER", "ADMIN", "MODERATOR"}
  {
    match role
    case "OWNER" => OwnerStyle
    case "ADMIN" => AdminStyle
    case "MODERATOR" => ModeratorStyle
    case _ => MemberStyle
  }

  datatype RoleIcon = CrownIcon | ShieldIcon | NoIcon

  /** `getRoleIcon`. */
  function RoleIconFor(role: string): (r: RoleIcon)
    ensures r == CrownIcon <==> role == "OWNER"
    ensures r == ShieldIcon <==> role == "ADMIN" || role == "MODERATOR"
  {
    match role
    case "OWNER" => CrownIcon
    case "ADMIN" => ShieldIcon
    case "MODERATOR" => ShieldIcon
    case _ => NoIcon
  }

  /** The name, else the email, else "?". */
  function InitialsSource(m: OrgMember): (r: string)
    ensures r != ""
    ensures r == m.name || r == m.email || r == "?"
    ensures m.name != "" ==> r == m.name
    ensures m.name == "" && m.email != "" ==> r == m.email
  {
    if m.name != "" then m.name else if m.email != "" then m.email else "?"
  }

  /** The avatar initials. */
  function ProfileInitials(m: OrgMember): (r: string)
    ensures |r| <= 2 && IsUpperCase(r)
  {
    Initials.WordInitials(InitialsSource(m))
  }

  /** A member with neither name nor email shows "?". */
  lemma NamelessShowsQuestionMark(m: OrgMember)
    requires m.name == "" && m.email == ""
    ensures ProfileInitials(m) == "?"
  {
    Initials.SingleWordInitial("?");
  }

  /** The counter and the two arrows; an arrow is its target index, or nothing while it
      is disabled. */
  datatype Nav = Nav(counter: string, prev: Option<int>, next: Option<int>)

  datatype Profile = Profile(
    initials: string, title: string, roleStyle: string, roleIcon: RoleIcon,
    crown: bool, nav: Option<Nav>)

  /** The dialog's content, or nothing when the index names no member. */
  function ProfileFor(members: seq<OrgMember>, currentIndex: int): (r: Option<Profile>)
    ensures r.Some? <==> 0 <= currentIndex < |members|
    ensures r.Some? ==> (r.value.nav.Some? <==> |members| > 1)
    ensures r.Some? ==> (r.value.crown <==> members[currentIndex].role == "OWNER")
    ensures r.Some? ==> r.value.title != ""
    ensures r.Some? ==> var m := members[currentIndex];
      && r.value.title == (if m.name != "" then m.name else "Unknown")
      && r.value.initials == ProfileInitials(m)
      && r.value.roleStyle == RoleBadgeStyle(m.role)
      && r.value.roleIcon == RoleIconFor(m.role)
    ensures r.Some? && r.value.nav.Some? ==>
      && r.value.nav.value.prev == (if currentIndex == 0 then None else Some(currentIndex - 1))
      && r.value.nav.value.next == (if currentIndex == |members| - 1 then None else Some(currentIndex + 1))
  {
    if !(0 <= currentIndex < |members|) then None
    else
      var m := members[currentIndex];
      var nav := if |members| > 1 then
        Some(Nav(
          NatToString(currentIndex + 1) + " of " + NatToString(|members|),
          if currentIndex == 0 then None else Some(currentIndex - 1),
          if currentIndex == |members| - 1 then None else Some(currentIndex + 1)))
        else None;
      Some(Profile(
        ProfileInitials(m), if m.name != "" then m.name else "Unknown",
        RoleBadgeStyle(m.role), RoleIconFor(m.role), m.role == "OWNER", nav))
  }

  /** An arrow that is enabled leads to the neighbouring member, so navigation never
      leaves the list; the first member has no previous one and the last no next one. */
  lemma NavigationStaysInRange(members: seq<OrgMember>, currentIndex: int)
    requires 0 <= currentIndex < |members| && |members| > 1
    ensures var nav := ProfileFor(members, currentIndex).value.nav.value;
      && (nav.prev.Some? <==> currentIndex > 0)
      && (nav.next.Some? <==> currentIndex < |members| - 1)
      && (nav.prev.Some? ==> nav.prev.value == currentIndex - 1 && 0 <= nav.prev.value < |members|)
      && (nav.next.Some? ==> nav.next.value == currentIndex + 1 && 0 <= nav.next.value < |members|)
  {
  }

  /** The counter reads "k of n" where k is the one-based position. */
  lemma CounterReadsPosition(members: seq<OrgMember>, currentIndex: int)
    requires 0 <= currentIndex < |members| && |members| > 1
    ensures var c := ProfileFor(members, currentIndex).value.nav.value.counter;
      exists k, n :: c == k + " of " + n && AllDigits(k) && AllDigits(n)
        && DecimalValue(k) == currentIndex + 1 && DecimalValue(n) == |members|
  {
    var k, n := NatToString(currentIndex + 1), NatToString(|members|);
    NatToStringRoundTrip(currentIndex + 1);
    NatToStringRoundTrip(|members|);
    assert ProfileFor(members, currentIndex).value.nav.value.counter == k + " of " + n;
  }
}
