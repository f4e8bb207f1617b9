/**
 * The user-management page (pages/admin/AdminUsersPage.tsx): the list shown,
 * the search, the confirmation dialog, the block toggle and the avatar
 * initials.
 */
module AdminUsers {
  import opened Wrappers
  import opened Types
  import Text
  import Seqs
  import Sorting
  import MockApi

  // ---------------------------------------------------------------- the list

  /** The test of `usersData.filter(u => u.id !== currentUser.id)`. */
  function NotUser(id: string): User -> bool {
    (u: User) => u.id != id
  }

  /**
   * The list `fetchUsers` stores: every user except the signed-in one, each as
   * often as in the store, newest first.
   */
  function VisibleUsers(all: seq<User>, currentId: string): (r: seq<User>)
    ensures forall u :: u in r <==> u in all && u.id != currentId
    ensures forall u: User :: u.id != currentId ==> multiset(r)[u] == multiset(all)[u]
    ensures Sorting.SortedDesc(r, UserCreatedAt)
  {
    var others := Seqs.Filter(all, NotUser(currentId));
    var r := Sorting.SortDesc(others, UserCreatedAt);
    Sorting.SortDescMembers(others, UserCreatedAt);
    forall u: User | u.id != currentId ensures multiset(r)[u] == multiset(all)[u] {
      Seqs.FilterMultiplicity(all, NotUser(currentId), u);
    }
    r
  }

  /** Users who joined at the same moment are listed in store order. */
  lemma VisibleUsersStable(all: seq<User>, currentId: string, t: int)
    ensures Seqs.Filter(VisibleUsers(all, currentId), Sorting.KeyIs(UserCreatedAt, t)) ==
      Seqs.Filter(Seqs.Filter(all, NotUser(currentId)), Sorting.KeyIs(UserCreatedAt, t))
  {
    Sorting.SortDescStable(Seqs.Filter(all, NotUser(currentId)), UserCreatedAt, t);
  }

  // ---------------------------------------------------------------- search

  /** The lowercased term occurs in the lowercased name or e-mail. */
  predicate UserMatches(u: User, term: string) {
    Text.Includes(Text.Lower(u.name), Text.Lower(term)) || Text.Includes(Text.Lower(u.email), Text.Lower(term))
  }

  /** The test handed to `users.filter`. */
  function Matcher(term: string): User -> bool {
    (u: User) => UserMatches(u, term)
  }

  /** `filteredUsers`: the users the search matches, in list order. */
  function FilterUsers(users: seq<User>, term: string): (r: seq<User>)
    ensures forall u :: u in r <==> u in users && UserMatches(u, term)
    ensures Seqs.IsSubsequence(r, users)
    ensures forall u: User :: UserMatches(u, term) ==> multiset(r)[u] == multiset(users)[u]
  {
    var r := Seqs.Filter(users, Matcher(term));
    forall u: User | UserMatches(u, term) ensures multiset(r)[u] == multiset(users)[u] {
      Seqs.FilterMultiplicity(users, Matcher(term), u);
    }
    r
  }

  /** An empty search shows everyone. */
  lemma EmptySearchKeepsAll(users: seq<User>)
    ensures FilterUsers(users, []) == users
  {
    forall k | 0 <= k < |users| ensures Matcher([])(users[k]) {
      Text.IncludesEmpty(Text.Lower(users[k].name));
    }
    Seqs.FilterKeepsAll(users, Matcher([]));
  }

  // ---------------------------------------------------------------- block toggle

  /** `{ isBlocked: !user.isBlocked }`, for the user as the dialog saw it. */
  function BlockToggle(u: User): (up: UserUpdates)
    ensures up.isBlocked == Some(!u.isBlocked)
  {
    NoUserUpdates.(isBlocked := Some(!u.isBlocked))
  }

  /** The toggle flips the flag and keeps every other field. */
  lemma BlockToggleFlipsOnlyTheFlag(u: User)
    ensures MergeUser(u, BlockToggle(u)) == u.(isBlocked := !u.isBlocked)
  {
  }

  /** Block and unblock are one operation: confirming it twice restores the record. */
  lemma BlockToggleTwice(u: User)
    ensures var v := MergeUser(u, BlockToggle(u)); MergeUser(v, BlockToggle(v)) == u
  {
  }

  /**
   * Blocking a user who was not blocked locks them out: `login` with their
   * e-mail fails from then on.
   */
  lemma BlockingLocksOut(users: seq<User>, u: User, i: nat)
    requires MockApi.EmailsUnique(users)
    requires MockApi.IndexOfUser(users, u.id) == Some(i)
    requires !u.isBlocked
    ensures MockApi.Login(users[i := MergeUser(users[i], BlockToggle(u))], users[i].email) ==
      Failure(MockApi.InvalidCredentials)
  {
    var after := users[i := MergeUser(users[i], BlockToggle(u))];
    assert forall k :: 0 <= k < |users| && k != i ==> after[k] == users[k];
    assert after[i].email == users[i].email;
    assert MockApi.EmailsUnique(after);
    MockApi.BlockedUserCannotLogin(after, i);
  }

  // ---------------------------------------------------------------- the dialog

  datatype Action = Block | Delete

  /** `modalState`. */
  datatype ModalState = ModalState(isOpen: bool, user: Option<User>, action: Option<Action>)

  const ClosedModal := ModalState(false, None, None)

  /** The four strings the confirmation dialog is given. */
  datatype ModalContent = ModalContent(title: string, message: string, confirmButtonClass: string, confirmButtonText: string)

  const NoContent := ModalContent("", "", "", "")

  /** The button text of the block dialog. */
  function ActionText(u: User): string {
    if u.isBlocked then "Unblock" else "Block"
  }

  /** `modalContent`. */
  function ContentOf(m: ModalState): (c: ModalContent)
    ensures m.user.None? || m.action.None? ==> c == NoContent
    ensures m.user.Some? && m.action == Some(Block) ==>
      c.confirmButtonText == ActionText(m.user.value) && c.title == "Confirm User " + c.confirmButtonText
    ensures m.user.Some? && m.action == Some(Delete) ==> c.confirmButtonText == "Delete"
  {
    match (m.user, m.action)
    case (Some(u), Some(Block)) =>
      var text := ActionText(u);
      ModalContent("Confirm User " + text,
                   "Are you sure you want to " + Text.Lower(text) + " the user \"" + u.name + "\"?",
                   if u.isBlocked then "bg-green-600 hover:bg-green-700" else "bg-yellow-600 hover:bg-yellow-700",
                   text)
    case (Some(u), Some(Delete)) =>
      ModalContent("Confirm User Deletion",
                   "Are you sure you want to permanently delete the user \"" + u.name + "\"? This action cannot be undone.",
                   "bg-red-600 hover:bg-red-700", "Delete")
    case _ => NoContent
  }

  /** The block dialog's button says what confirming will do: "Unblock" exactly when the toggle unblocks. */
  lemma ButtonSaysWhatToggleDoes(u: User)
    ensures ContentOf(ModalState(true, Some(u), Some(Block))).confirmButtonText == "Unblock" <==>
      !MergeUser(u, BlockToggle(u)).isBlocked
    ensures ContentOf(ModalState(true, Some(u), Some(Block))).confirmButtonText == "Block" <==>
      MergeUser(u, BlockToggle(u)).isBlocked
  {
  }

  // ---------------------------------------------------------------- initials

  /** `words.map(n => n[0]).join('')`: an empty word has no first character and adds nothing. */
  function FirstLetters(words: seq<string>): (r: string)
    ensures |r| <= |words|
    decreases |words|
  {
    if words == [] then []
    else (if words[0] == [] then [] else [words[0][0]]) + FirstLetters(words[1..])
  }

  /** The avatar text: the first letter of each space-separated word, uppercased, at most two. */
  function Initials(name: string): (r: string)
    ensures |r| <= 2
    ensures forall k :: 0 <= k < |r| ==> !('a' <= r[k] <= 'z')
  {
    var all := Text.Upper(FirstLetters(Text.Split(name, ' ')));
    if |all| <= 2 then all else all[..2]
  }

  /** A one-word name gives its first letter. */
  lemma InitialsOfOneWord(w: string)
    requires w != [] && ' ' !in w
    ensures Initials(w) == [Text.UpperChar(w[0])]
  {
    Text.SplitSepFree(w, ' ');
    assert FirstLetters([w]) == [w[0]];
  }

  /** When the first two words are not empty, their first letters are the initials. */
  lemma InitialsOfLeadingWords(name: string)
    requires var words := Text.Split(name, ' '); |words| >= 2 && words[0] != [] && words[1] != []
    ensures var words := Text.Split(name, ' ');
      Initials(name) == [Text.UpperChar(words[0][0]), Text.UpperChar(words[1][0])]
  {
    var words := Text.Split(name, ' ');
    var letters := FirstLetters(words);
    assert FirstLetters(words[1..]) == [words[1][0]] + FirstLetters(words[2..]) by {
      assert words[1..][0] == words[1];
      assert words[1..][1..] == words[2..];
    }
    assert letters == [words[0][0]] + FirstLetters(words[1..]);
    assert letters[..2] == [words[0][0], words[1][0]];
  }

  /** "First Last" gives the two first letters, uppercased. */
  lemma InitialsOfTwoWords(first: string, last: string)
    requires first != [] && last != [] && ' ' !in first && ' ' !in last
    ensures Initials(first + " " + last) == [Text.UpperChar(first[0]), Text.UpperChar(last[0])]
  {
    Text.SplitSepFree(last, ' ');
    Text.SplitAfterPart(first, last, ' ');
    assert first + " " + last == first + [' '] + last;
    InitialsOfLeadingWords(first + " " + last);
  }

  /** Only the first two words count: later words never change the initials. */
  lemma InitialsIgnoreLaterWords(first: string, second: string, rest: string)
    requires first != [] && second != [] && ' ' !in first && ' ' !in second
    ensures Initials(first + " " + second + " " + rest) == Initials(first + " " + second)
  {
    var name := first + " " + second + " " + rest;
    var tail := second + [' '] + rest;
    assert name == first + [' '] + tail;
    Text.SplitAfterPart(first, tail, ' ');
    Text.SplitAfterPart(second, rest, ' ');
    InitialsOfLeadingWords(name);
    InitialsOfTwoWords(first, second);
  }

  // ---------------------------------------------------------------- the page

  /** The page's own state. */
  class UsersPage {
    var users: seq<User>
    var loading: bool
    var modal: ModalState

    constructor ()
      ensures users == [] && loading && modal == ClosedModal
    {
      users := [];
      loading := true;
      modal := ClosedModal;
    }

    /**
     * `fetchUsers`: with a signed-in user the list becomes everyone else,
     * newest first; without one the list is left as it was. Loading ends
     * either way.
     */
    method FetchUsers(currentUser: Option<User>, api: MockApi.Store)
      modifies this
      ensures currentUser.Some? ==> users == VisibleUsers(api.users, currentUser.value.id)
      ensures currentUser.None? ==> users == old(users)
      ensures !loading && modal == old(modal)
    {
      loading := true;
      var all := api.GetUsers();
      if currentUser.Some? {
        users := VisibleUsers(all, currentUser.value.id);
      }
      loading := false;
    }

    /** `openModal`. */
    method OpenModal(u: User, action: Action)
      modifies this
      ensures modal == ModalState(true, Some(u), Some(action))
      ensures users == old(users) && loading == old(loading)
    {
      modal := ModalState(true, Some(u), Some(action));
    }

    /** `closeModal`. */
    method CloseModal()
      modifies this
      ensures modal == ClosedModal
      ensures users == old(users) && loading == old(loading)
    {
      modal := ClosedModal;
    }

    /**
     * `handleConfirmAction`: without a user and an action nothing happens.
     * Otherwise the block action sends the flipped flag of the user as the
     * dialog saw it, or the delete action removes that id; the list is fetched
     * again unless the store refused; and the dialog closes in every case.
     */
    method HandleConfirmAction(currentUser: Option<User>, api: MockApi.Store)
      requires api.Valid()
      modifies this, api
      ensures api.Valid()
      ensures api.courses == old(api.courses) && api.feedback == old(api.feedback)
      ensures old(modal).user.None? || old(modal).action.None? ==>
        unchanged(this) && api.users == old(api.users)
      ensures old(modal).user.Some? && old(modal).action.Some? ==> modal == ClosedModal
      ensures old(modal).user.Some? && old(modal).action == Some(Block) ==>
        var u := old(modal).user.value;
        match MockApi.IndexOfUser(old(api.users), u.id)
        case None =>
          api.users == old(api.users) && users == old(users) && loading == old(loading)
        case Some(i) =>
          && api.users == old(api.users)[i := MergeUser(old(api.users)[i], BlockToggle(u))]
          && (currentUser.Some? ==> users == VisibleUsers(api.users, currentUser.value.id))
          && (currentUser.None? ==> users == old(users))
          && !loading
      ensures old(modal).user.Some? && old(modal).action == Some(Delete) ==>
        && api.users == MockApi.UsersWithoutId(old(api.users), old(modal).user.value.id)
        && (currentUser.Some? ==> users == VisibleUsers(api.users, currentUser.value.id))
        && (currentUser.None? ==> users == old(users))
        && !loading
    {
      if modal.user.None? || modal.action.None? {
        return;
      }
      var u := modal.user.value;
      if modal.action.value == Block {
        var r := api.UpdateUserProfile(u.id, BlockToggle(u));
        if r.Success? {
          FetchUsers(currentUser, api);
        }
      } else {
        api.DeleteUser(u.id);
        FetchUsers(currentUser, api);
      }
      CloseModal();
    }
  }

  /** A deleted user disappears from the refetched list, and nobody else does. */
  lemma DeletedUserLeavesList(all: seq<User>, currentId: string, deletedId: string)
    ensures forall u :: u in VisibleUsers(MockApi.UsersWithoutId(all, deletedId), currentId) <==>
      u in all && u.id != currentId && u.id != deletedId
  {
  }
}
