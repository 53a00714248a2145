/** The team page: a name search over the user listing and the per-user counts. */
module TeamPage {
  import opened Wrappers
  import Text
  import Seqs

  /** A user as the page receives it from `GET /users`; the project and
      task arrays may be missing. */
  datatype Member = Member(id: string, name: string, email: string,
                           projects: Option<seq<string>>, tasks: Option<seq<string>>)

  predicate NameMatches(query: string, u: Member) {
    Text.Contains(Text.Lower(u.name), Text.Lower(query))
  }

  function NameMatchesBy(query: string): Member -> bool {
    (u: Member) => NameMatches(query, u)
  }

  /** `filteredUsers`. */
  function FilterUsers(users: seq<Member>, query: string): (r: seq<Member>)
    ensures |r| <= |users|
    ensures forall i :: 0 <= i < |r| ==> r[i] in users && NameMatches(query, r[i])
    ensures forall i :: 0 <= i < |users| && NameMatches(query, users[i]) ==> users[i] in r
  {
    Seqs.Filter(users, NameMatchesBy(query))
  }

  /** The search keeps order, an empty query keeps everyone, and searching
      the result again changes nothing. */
  lemma FilterUsersProperties(users: seq<Member>, query: string)
    ensures Seqs.IsSubsequence(FilterUsers(users, query), users)
    ensures FilterUsers(users, "") == users
    ensures FilterUsers(FilterUsers(users, query), query) == FilterUsers(users, query)
  {
    Seqs.FilterIsSubsequence(users, NameMatchesBy(query));
    Seqs.FilterIdempotent(users, NameMatchesBy(query));
    forall i | 0 <= i < |users| ensures NameMatchesBy("")(users[i]) {
      Text.ContainsEmpty(Text.Lower(users[i].name));
    }
    Seqs.FilterKeepsAll(users, NameMatchesBy(""));
  }

  /** `list?.length || 0`. */
  function CountOrZero<T>(list: Option<seq<T>>): (n: nat)
    ensures list.None? ==> n == 0
    ensures list.Some? ==> n == |list.value|
  {
    if list.Some? then |list.value| else 0
  }
}
