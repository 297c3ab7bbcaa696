/**
 * The staff team console (`src/components/admin/TeamManagement.tsx`): validation and
 * record construction on submission, the list sorted newest first, form reset and delete.
 * The `teamMembers` collection is the field `store`.
 */
module TeamManagement {
  import opened Types
  import opened Seqs
  import opened StableSort

  datatype TeamForm = TeamForm(name: string, role: string, email: string, phone: string)

  const EmptyForm: TeamForm := TeamForm("", "", "", "")

  /** The submission check: `!name || !role` rejects. */
  predicate CanSubmit(form: TeamForm)
  {
    form.name != "" && form.role != ""
  }

  /** `value || null`: an empty optional field is stored as null. */
  function OrNull(value: string): (r: Option<string>)
    ensures r == None <==> value == ""
  {
    if value == "" then None else Some(value)
  }

  /** How an optional contact reads back: null shows as nothing. */
  function OrEmpty(stored: Option<string>): string
  {
    match stored
    case None => ""
    case Some(s) => s
  }

  /** The text typed into an optional field is exactly what reads back from the record. */
  lemma OrNullRoundTrip(value: string)
    ensures OrEmpty(OrNull(value)) == value
    ensures OrNull(value) != Some("")
  {
  }

  /** The document `handleSubmit` writes: name and role as entered, empty contacts as null,
      an empty schedule. */
  function NewMember(form: TeamForm, id: string, createdAt: Timestamp): (m: TeamMember)
    requires CanSubmit(form)
    ensures m.id == id && m.name == form.name && m.role == form.role
    ensures OrEmpty(m.email) == form.email && OrEmpty(m.phone) == form.phone
    ensures m.email != Some("") && m.phone != Some("")
    ensures m.schedule == [] && m.createdAt == createdAt
    ensures m.name != "" && m.role != ""
  {
    OrNullRoundTrip(form.email);
    OrNullRoundTrip(form.phone);
    TeamMember(id, form.name, form.role, OrNull(form.email), OrNull(form.phone), [], createdAt)
  }

  /** The comparator `b.createdAt.seconds - a.createdAt.seconds` sorts ascending on the
      negated time. */
  function NewestFirstKey(m: TeamMember): int
  {
    -m.createdAt.seconds
  }

  /** The loaded list: a permutation of the fetched list in descending `createdAt.seconds`. */
  function NewestFirst(fetched: seq<TeamMember>): (r: seq<TeamMember>)
    ensures multiset(r) == multiset(fetched)
    ensures forall i, j :: 0 <= i < j < |r| ==> r[i].createdAt.seconds >= r[j].createdAt.seconds
  {
    InsertionSortPermutes(fetched, NewestFirstKey);
    InsertionSortSorted(fetched, NewestFirstKey);
    InsertionSort(fetched, NewestFirstKey)
  }

  function CreatedAtSecond(t: int): TeamMember -> bool
  {
    (m: TeamMember) => m.createdAt.seconds == t
  }

  /** Members created in the same second keep their fetch order. */
  lemma NewestFirstKeepsTies(fetched: seq<TeamMember>, t: int)
    ensures Seqs.Filter(NewestFirst(fetched), CreatedAtSecond(t)) == Seqs.Filter(fetched, CreatedAtSecond(t))
  {
    InsertionSortStable(fetched, NewestFirstKey, -t);
    forall m: TeamMember ensures CreatedAtSecond(t)(m) == HasKey(NewestFirstKey, -t)(m) {
      assert CreatedAtSecond(t)(m) == (m.createdAt.seconds == t);
      assert HasKey(NewestFirstKey, -t)(m) == (NewestFirstKey(m) == -t);
    }
    FilterCongruent(NewestFirst(fetched), CreatedAtSecond(t), HasKey(NewestFirstKey, -t));
    FilterCongruent(fetched, CreatedAtSecond(t), HasKey(NewestFirstKey, -t));
  }

  /** The component state and the `teamMembers` collection it reads and writes. */
  class TeamManagement {
    var store: seq<TeamMember>
    var members: seq<TeamMember>
    var loading: bool
    var showForm: bool
    var form: TeamForm

    /** Document ids are unique within the collection. */
    ghost predicate Valid()
      reads this
    {
      DistinctBy(store, MemberId)
    }

    constructor (remote: seq<TeamMember>)
      requires DistinctBy(remote, MemberId)
      ensures Valid()
      ensures store == remote && members == [] && loading && !showForm && form == EmptyForm
    {
      store := remote;
      members := [];
      loading := true;
      showForm := false;
      form := EmptyForm;
    }

    /** `loadTeamMembers`: fetch, sort in place newest first, replace the list. */
    method LoadTeamMembers()
      requires Valid()
      modifies this
      ensures Valid()
      ensures members == NewestFirst(store) && !loading
      ensures store == old(store) && showForm == old(showForm) && form == old(form)
    {
      var fetched := store;
      var a := new TeamMember[|fetched|](i requires 0 <= i < |fetched| => fetched[i]);
      assert a[..] == fetched;
      SortInPlace(a, NewestFirstKey);
      members := a[..];
      loading := false;
    }

    /** The header button `setShowForm(!showForm)`. */
    method ToggleForm()
      modifies this
      ensures showForm == !old(showForm)
      ensures store == old(store) && members == old(members) && form == old(form) && loading == old(loading)
    {
      showForm := !showForm;
    }

    /** `resetForm`: all four fields back to the empty text, form hidden. */
    method ResetForm()
      modifies this
      ensures form == EmptyForm && !showForm
      ensures store == old(store) && members == old(members) && loading == old(loading)
    {
      form := EmptyForm;
      showForm := false;
    }

    /** `handleSubmit`: an empty name or role is rejected and nothing changes; otherwise the
        member is written (the collection decides where it appears in a fetch, `at`), the
        form is reset and the list reloaded. */
    method HandleSubmit(newId: string, serverTime: Timestamp, at: nat) returns (accepted: bool)
      requires Valid()
      requires !HasKeyValue(store, MemberId, newId) && at <= |store|
      modifies this
      ensures Valid()
      ensures accepted == CanSubmit(old(form))
      ensures !accepted ==>
        store == old(store) && members == old(members) && form == old(form) && showForm == old(showForm)
        && loading == old(loading)
      ensures accepted ==>
        store == old(store)[..at] + [NewMember(old(form), newId, serverTime)] + old(store)[at..]
        && form == EmptyForm && !showForm && members == NewestFirst(store) && !loading
    {
      if !CanSubmit(form) {
        return false;
      }
      var m := NewMember(form, newId, serverTime);
      InsertFreshDistinct(store, MemberId, m, at);
      store := store[..at] + [m] + store[at..];
      ResetForm();
      LoadTeamMembers();
      accepted := true;
    }

    /** `deleteMember`: declining the confirmation changes nothing; otherwise the member
        with that id is removed and the list reloaded. */
    method DeleteMember(id: string, confirmed: bool)
      requires Valid()
      modifies this
      ensures Valid()
      ensures !confirmed ==> store == old(store) && members == old(members) && loading == old(loading)
      ensures confirmed ==>
        store == Seqs.Filter(old(store), KeyIsNot(MemberId, id)) && members == NewestFirst(store) && !loading
      ensures form == old(form) && showForm == old(showForm)
    {
      if !confirmed {
        return;
      }
      FilterDistinct(store, KeyIsNot(MemberId, id), MemberId);
      store := Seqs.Filter(store, KeyIsNot(MemberId, id));
      LoadTeamMembers();
    }
  }
}
