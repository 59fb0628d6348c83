/**
 * The administrators' user list: the role a user is shown with, the search
 * and role filter, paging by ten, and the local updates made after the
 * server accepted a status toggle, a role change or a deletion.
 *
 * The server calls themselves are not modelled; each update here is the one
 * the page applies once its call succeeded.
 */
module Users {
  import opened Seqs
  import opened Strings
  import opened Listing

  const UsersPerPage := 10

  /**
   * A user as the list holds it. `roles` is None when the field is missing
   * or not an array; optional text fields are None when missing.
   */
  datatype User = User(id: int, username: Option<string>, email: Option<string>,
                       firstname: Option<string>, lastname: Option<string>,
                       roles: Option<seq<string>>, isActive: bool)

  const AdminRole := "ROLE_ADMIN"
  const ModeratorRole := "ROLE_MODERATOR"

  /** The icons a role is drawn with. */
  datatype Icon = UserIcon | ShieldCheckIcon | ShieldExclamationIcon

  /** `getRoleColor`. */
  function RoleColor(roles: Option<seq<string>>): string
  {
    if roles.None? then "bg-gray-100 text-gray-800"
    else if AdminRole in roles.value then "bg-red-100 text-red-800"
    else if ModeratorRole in roles.value then "bg-yellow-100 text-yellow-800"
    else "bg-green-100 text-green-800"
  }

  /** `getRoleName`. */
  function RoleName(roles: Option<seq<string>>): string
  {
    if roles.None? then "User"
    else if AdminRole in roles.value then "Admin"
    else if ModeratorRole in roles.value then "Moderator"
    else "User"
  }

  /** `getRoleIcon`. */
  function RoleIcon(roles: Option<seq<string>>): Icon
  {
    if roles.None? then UserIcon
    else if AdminRole in roles.value then ShieldCheckIcon
    else if ModeratorRole in roles.value then ShieldExclamationIcon
    else UserIcon
  }

  /** The precedence the three helpers share: administrator over moderator over plain user. */
  datatype Rank = AdminRank | ModeratorRank | UserRank

  predicate HasRole(roles: Option<seq<string>>, role: string)
  {
    roles.Some? && role in roles.value
  }

  function RankOf(roles: Option<seq<string>>): (r: Rank)
    ensures r == AdminRank <==> HasRole(roles, AdminRole)
    ensures r == ModeratorRank <==> !HasRole(roles, AdminRole) && HasRole(roles, ModeratorRole)
    ensures r == UserRank <==> !HasRole(roles, AdminRole) && !HasRole(roles, ModeratorRole)
  {
    if HasRole(roles, AdminRole) then AdminRank
    else if HasRole(roles, ModeratorRole) then ModeratorRank
    else UserRank
  }

  /** Name, colour and icon all follow the rank: one name, one colour and one icon per rank. */
  lemma RoleDisplayFollowsRank(roles: Option<seq<string>>)
    ensures RoleName(roles) == match RankOf(roles)
      case AdminRank => "Admin" case ModeratorRank => "Moderator" case UserRank => "User"
    ensures RoleColor(roles) == match RankOf(roles)
      case AdminRank => "bg-red-100 text-red-800"
      case ModeratorRank => "bg-yellow-100 text-yellow-800"
      case UserRank => if roles.None? then "bg-gray-100 text-gray-800" else "bg-green-100 text-green-800"
    ensures RoleIcon(roles) == match RankOf(roles)
      case AdminRank => ShieldCheckIcon case ModeratorRank => ShieldExclamationIcon case UserRank => UserIcon
  {
  }

  /** A user holding both roles is shown as an administrator; a missing roles value as a plain user. */
  lemma AdminWinsOverModerator(others: seq<string>)
    ensures RoleName(Some(others + [ModeratorRole, AdminRole])) == "Admin"
    ensures RoleName(Some([ModeratorRole] + others)) != "User"
    ensures RoleName(None) == "User" && RoleName(Some([])) == "User"
  {
    var both := others + [ModeratorRole, AdminRole];
    assert both[|others| + 1] == AdminRole;
    assert ([ModeratorRole] + others)[0] == ModeratorRole;
  }

  /** `${user.firstname || ''} ${user.lastname || ''}`. */
  function FullName(user: User): string
  {
    OrEmpty(user.firstname) + " " + OrEmpty(user.lastname)
  }

  function OrEmpty(s: Option<string>): string
  {
    if s.Some? then s.value else ""
  }

  /** `text?.toLowerCase().includes(term.toLowerCase())`: a missing text matches nothing. */
  predicate MentionsTerm(text: Option<string>, term: string)
  {
    text.Some? && Contains(Lower(text.value), Lower(term))
  }

  /** The search half of the filter: username, email or full name contains the term, ignoring case. */
  predicate MatchesSearch(user: User, term: string)
  {
    MentionsTerm(user.username, term) || MentionsTerm(user.email, term) || MentionsTerm(Some(FullName(user)), term)
  }

  /** The role half: every role for "all", otherwise the role must be in the user's roles array. */
  predicate MatchesRole(user: User, selectedRole: string)
  {
    selectedRole == "all" || HasRole(user.roles, selectedRole)
  }

  /** `filteredUsers`. */
  function FilteredUsers(users: seq<User>, term: string, selectedRole: string): (r: seq<User>)
    ensures forall u :: u in r <==> u in users && MatchesSearch(u, term) && MatchesRole(u, selectedRole)
    ensures IsSubsequence(r, users)
  {
    var keep := (u: User) => MatchesSearch(u, term) && MatchesRole(u, selectedRole);
    FilterIsSubsequence(users, keep);
    Filter(users, keep)
  }

  /** The empty text occurs in every text, so an empty search with role "all" lists everyone. */
  lemma EmptySearchListsEveryone(users: seq<User>)
    ensures forall u :: u in users ==> MatchesSearch(u, "") && MatchesRole(u, "all")
  {
    forall u | u in users
      ensures MatchesSearch(u, "")
    {
      assert OccursAt(Lower(FullName(u)), Lower(""), 0);
    }
  }

  /** The search ignores the case of the term. */
  lemma SearchIgnoresCase(user: User, term: string)
    ensures MatchesSearch(user, Upper(term)) == MatchesSearch(user, term)
    ensures MatchesSearch(user, Lower(term)) == MatchesSearch(user, term)
  {
    LowerForgetsCase(term);
  }

  /** `currentUsers`: the current page's slice of the filtered users. */
  function CurrentUsers(filtered: seq<User>, currentPage: int): seq<User>
  {
    var indexOfLastUser := currentPage * UsersPerPage;
    var indexOfFirstUser := indexOfLastUser - UsersPerPage;
    Slice(filtered, indexOfFirstUser, indexOfLastUser)
  }

  /** `totalPages`. */
  function UserPages(filtered: seq<User>): nat
  {
    PageCount(|filtered|, UsersPerPage)
  }

  /** Page p from the first on holds the filtered users from (p - 1) * 10 on, at most ten of them. */
  lemma CurrentUsersSpec(filtered: seq<User>, currentPage: int)
    requires currentPage >= 1
    ensures var page := CurrentUsers(filtered, currentPage);
      |page| <= UsersPerPage &&
      forall k :: 0 <= k < |page| ==> page[k] == filtered[(currentPage - 1) * UsersPerPage + k]
  {
    MulStep(currentPage - 1, UsersPerPage);
    assert CurrentUsers(filtered, currentPage) == PageOf(filtered, currentPage, UsersPerPage);
    PageContents(filtered, currentPage, UsersPerPage);
  }

  /** Every filtered user is on one of the pages 1 .. totalPages. */
  lemma EveryUserOnAPage(filtered: seq<User>, i: int)
    requires 0 <= i < |filtered|
    ensures 1 <= i / UsersPerPage + 1 <= UserPages(filtered)
    ensures filtered[i] in CurrentUsers(filtered, i / UsersPerPage + 1)
  {
    EveryItemOnAPage(filtered, UsersPerPage, i);
    var page := i / UsersPerPage + 1;
    MulStep(page - 1, UsersPerPage);
    assert CurrentUsers(filtered, page) == PageOf(filtered, page, UsersPerPage);
  }

  /** `handleToggleUserStatus`: the users with that id change activity, everyone else is kept as is. */
  function ToggledStatus(users: seq<User>, userId: int): (r: seq<User>)
    ensures |r| == |users|
    ensures forall i :: 0 <= i < |users| ==>
      r[i] == if users[i].id == userId then users[i].(isActive := !users[i].isActive) else users[i]
  {
    seq(|users|, i requires 0 <= i < |users| =>
      if users[i].id == userId then users[i].(isActive := !users[i].isActive) else users[i])
  }

  /** Toggling twice restores the list. */
  lemma ToggleTwice(users: seq<User>, userId: int)
    ensures ToggledStatus(ToggledStatus(users, userId), userId) == users
  {
    var once := ToggledStatus(users, userId);
    var twice := ToggledStatus(once, userId);
    forall i | 0 <= i < |users|
      ensures twice[i] == users[i]
    {
      assert once[i].id == users[i].id;
    }
  }

  /** `handleRoleChange`: the users with that id get exactly the new role, everyone else is kept as is. */
  function WithRole(users: seq<User>, userId: int, newRole: string): (r: seq<User>)
    ensures |r| == |users|
    ensures forall i :: 0 <= i < |users| ==>
      r[i] == if users[i].id == userId then users[i].(roles := Some([newRole])) else users[i]
  {
    seq(|users|, i requires 0 <= i < |users| =>
      if users[i].id == userId then users[i].(roles := Some([newRole])) else users[i])
  }

  /** After a role change the user is shown with the new role's rank. */
  lemma RoleChangeShown(users: seq<User>, userId: int, newRole: string, i: int)
    requires 0 <= i < |users| && users[i].id == userId
    ensures RankOf(WithRole(users, userId, newRole)[i].roles) ==
      if newRole == AdminRole then AdminRank else if newRole == ModeratorRole then ModeratorRank else UserRank
  {
    var roles := WithRole(users, userId, newRole)[i].roles;
    assert roles == Some([newRole]);
    assert AdminRole in [newRole] <==> newRole == AdminRole;
    assert ModeratorRole in [newRole] <==> newRole == ModeratorRole;
  }

  /** `handleDeleteUser`: every user with that id goes, every other user stays, in order. */
  function WithoutUser(users: seq<User>, userId: int): (r: seq<User>)
    ensures forall u :: u in r <==> u in users && u.id != userId
    ensures |r| == |users| - Count(users, (u: User) => u.id == userId)
    ensures IsSubsequence(r, users)
  {
    var keep := (u: User) => u.id != userId;
    CountComplement(users, keep, (u: User) => u.id == userId);
    FilterIsSubsequence(users, keep);
    Filter(users, keep)
  }
}
