/** The person index of the project catalogue: how it is built from projects that arrive
    in any order, saved, and looked up (backend/services/fusion_catalogue.py). */
module Catalogue {
  import opened Values

  datatype Member = Member(personId: string, name: string, role: string)

  datatype Assignment = Assignment(projectId: string, personId: string, name: string)

  datatype Project = Project(
    id: string, number: string, name: string, members: seq<Member>, managerId: string, manager: string)

  /** A project as a person's list shows it. */
  datatype Entry = Entry(project: Project, role: string, personId: string)

  /** One place where a project names a person. */
  datatype Mention = Mention(personId: string, name: string, project: Project, role: string)

  function IdentityOf(p: Project): string { if p.id != "" then p.id else p.number }

  function MemberMentions(p: Project, members: seq<Member>): seq<Mention> {
    if members == [] then []
    else
      var m := members[0];
      [Mention(Trim(m.personId), Trim(m.name), p, m.role)] + MemberMentions(p, members[1..])
  }

  function AssignmentMentions(p: Project, assignments: seq<Assignment>): seq<Mention> {
    if assignments == [] then []
    else
      var a := assignments[0];
      (if Trim(a.projectId) != "" && Trim(a.projectId) == p.id
       then [Mention(Trim(a.personId), Trim(a.name), p, "Resource Assignment")] else [])
      + AssignmentMentions(p, assignments[1..])
  }

  /** Where a project names people: its members, its assignments, then its manager. */
  function Mentions(p: Project, assignments: seq<Assignment>): seq<Mention> {
    MemberMentions(p, p.members) + AssignmentMentions(p, assignments)
    + [Mention(Trim(p.managerId), Trim(p.manager), p, "Project Manager")]
  }

  function AllMentions(ps: seq<Project>, assignments: seq<Assignment>): seq<Mention> {
    if ps == [] then [] else Mentions(ps[0], assignments) + AllMentions(ps[1..], assignments)
  }

  /** The stable key of a person id; `fold` is the case folding. */
  function KeyOf(personId: string, fold: string -> string): string { fold(Trim(personId)) }

  predicate Names(m: Mention, key: string, fold: string -> string) { KeyOf(m.personId, fold) == key }

  function Filed(m: Mention): Entry { Entry(m.project, m.role, Trim(m.personId)) }

  // ---------------------------------------------------------------- the specification

  /** The entry a person should have for a project: that of the first mention. */
  function Chosen(ms: seq<Mention>, key: string, identity: string, fold: string -> string): Option<Entry> {
    if ms == [] then None
    else if Names(ms[0], key, fold) && IdentityOf(ms[0].project) == identity then Some(Filed(ms[0]))
    else Chosen(ms[1..], key, identity, fold)
  }

  function NamesOf(ms: seq<Mention>, key: string, fold: string -> string): set<string> {
    set i | 0 <= i < |ms| && Names(ms[i], key, fold) && KeyOf(ms[i].name, fold) != "" :: KeyOf(ms[i].name, fold)
  }

  predicate Mentioned(ms: seq<Mention>, key: string, fold: string -> string) {
    exists i | 0 <= i < |ms| :: Names(ms[i], key, fold)
  }

  /** A key of the index: a non-empty id that occurs, with at most one name. */
  predicate Indexed(ms: seq<Mention>, key: string, fold: string -> string) {
    key != "" && Mentioned(ms, key, fold) && |NamesOf(ms, key, fold)| <= 1
  }

  /** The list a person gets: one entry per project, in the order of first mention. */
  function EntriesOf(ms: seq<Mention>, key: string, fold: string -> string): seq<Entry> {
    if ms == [] then []
    else
      var m := ms[|ms| - 1];
      var before := EntriesOf(ms[..|ms| - 1], key, fold);
      if Names(m, key, fold) && !HasIdentity(before, IdentityOf(m.project)) then before + [Filed(m)] else before
  }

  predicate HasIdentity(es: seq<Entry>, identity: string) {
    exists i | 0 <= i < |es| :: IdentityOf(es[i].project) == identity
  }

  /** The index is right: its keys are the indexed people, and a person's list holds
      exactly the chosen entry of every project that mentions them, once each. */
  ghost predicate RightIndex(index: map<string, seq<Entry>>, ms: seq<Mention>, fold: string -> string) {
    && (forall key :: key in index <==> Indexed(ms, key, fold))
    && (forall key | key in index ::
          && index[key] == EntriesOf(ms, key, fold)
          && (forall e :: e in index[key] <==> Chosen(ms, key, IdentityOf(e.project), fold) == Some(e))
          && (forall i, j | 0 <= i < j < |index[key]| ::
                IdentityOf(index[key][i].project) != IdentityOf(index[key][j].project)))
  }

  lemma {:induction false} ChosenOfMore(a: seq<Mention>, b: seq<Mention>, key: string, identity: string,
                                        fold: string -> string)
    ensures Chosen(a + b, key, identity, fold)
            == if Chosen(a, key, identity, fold).Some? then Chosen(a, key, identity, fold)
               else Chosen(b, key, identity, fold)
  {
    if a == [] {
      assert a + b == b;
    } else {
      assert (a + b)[1..] == a[1..] + b;
      ChosenOfMore(a[1..], b, key, identity, fold);
    }
  }

  /** A person's list holds, for every project identity, exactly the chosen entry. */
  lemma {:induction false} EntriesAreChosen(ms: seq<Mention>, key: string, fold: string -> string)
    ensures forall e :: e in EntriesOf(ms, key, fold) <==> Chosen(ms, key, IdentityOf(e.project), fold) == Some(e)
    ensures forall i, j | 0 <= i < j < |EntriesOf(ms, key, fold)| ::
              IdentityOf(EntriesOf(ms, key, fold)[i].project) != IdentityOf(EntriesOf(ms, key, fold)[j].project)
    ensures forall d :: HasIdentity(EntriesOf(ms, key, fold), d) <==> Chosen(ms, key, d, fold).Some?
  {
    if ms == [] {
    } else {
      var n := |ms| - 1;
      var before, after := EntriesOf(ms[..n], key, fold), EntriesOf(ms, key, fold);
      EntriesAreChosen(ms[..n], key, fold);
      assert ms == ms[..n] + [ms[n]];
      forall d
        ensures Chosen(ms, key, d, fold)
                == if Chosen(ms[..n], key, d, fold).Some? then Chosen(ms[..n], key, d, fold)
                   else if Names(ms[n], key, fold) && IdentityOf(ms[n].project) == d then Some(Filed(ms[n])) else None
      {
        ChosenOfMore(ms[..n], [ms[n]], key, d, fold);
        assert [ms[n]][1..] == [];
      }
      forall e
        ensures e in after <==> Chosen(ms, key, IdentityOf(e.project), fold) == Some(e)
      {
        assert e in before <==> Chosen(ms[..n], key, IdentityOf(e.project), fold) == Some(e);
      }
      forall d
        ensures HasIdentity(after, d) <==> Chosen(ms, key, d, fold).Some?
      {
        assert HasIdentity(before, d) <==> Chosen(ms[..n], key, d, fold).Some?;
        if after != before {
          assert after == before + [Filed(ms[n])] && after[|before|] == Filed(ms[n]);
          if HasIdentity(before, d) {
            var i :| 0 <= i < |before| && IdentityOf(before[i].project) == d;
            assert after[i] == before[i];
          }
        }
      }
    }
  }

  // ---------------------------------------------------------------- arrival order

  lemma {:induction false} MentionedByProjects(ps: seq<Project>, assignments: seq<Assignment>, m: Mention)
    ensures m in AllMentions(ps, assignments) <==> exists p | p in ps :: m in Mentions(p, assignments)
  {
    if ps == [] {
    } else {
      MentionedByProjects(ps[1..], assignments, m);
      assert forall p :: p in ps <==> p == ps[0] || p in ps[1..];
    }
  }

  /** Who is indexed depends only on which mentions there are. */
  lemma {:induction false} SameMentionsSameKeys(a: seq<Mention>, b: seq<Mention>, key: string, fold: string -> string)
    requires forall m :: m in a <==> m in b
    ensures Indexed(a, key, fold) == Indexed(b, key, fold)
  {
    SameMentionsOneWay(a, b, key, fold);
    SameMentionsOneWay(b, a, key, fold);
    assert NamesOf(a, key, fold) == NamesOf(b, key, fold);
  }

  lemma {:induction false} SameMentionsOneWay(a: seq<Mention>, b: seq<Mention>, key: string, fold: string -> string)
    requires forall m | m in a :: m in b
    ensures Mentioned(a, key, fold) ==> Mentioned(b, key, fold)
    ensures NamesOf(a, key, fold) <= NamesOf(b, key, fold)
  {
    forall i | 0 <= i < |a| && Names(a[i], key, fold)
      ensures Mentioned(b, key, fold)
      ensures KeyOf(a[i].name, fold) != "" ==> KeyOf(a[i].name, fold) in NamesOf(b, key, fold)
    {
      assert a[i] in b;
      var j :| 0 <= j < |b| && b[j] == a[i];
    }
  }

  lemma {:induction false} ChosenMeansMentioned(ms: seq<Mention>, key: string, identity: string, fold: string -> string)
    ensures Chosen(ms, key, identity, fold).Some?
            <==> exists m | m in ms :: Names(m, key, fold) && IdentityOf(m.project) == identity
  {
    if ms == [] {
    } else {
      ChosenMeansMentioned(ms[1..], key, identity, fold);
      assert forall m :: m in ms <==> m == ms[0] || m in ms[1..];
    }
  }

  /** The order in which projects finish fetching changes neither who is indexed nor
      which projects each person has. */
  lemma {:induction false} ArrivalOrderIsIrrelevant(ps: seq<Project>, qs: seq<Project>, assignments: seq<Assignment>,
                                                    key: string, fold: string -> string)
    requires forall p :: p in ps <==> p in qs
    ensures var a, b := AllMentions(ps, assignments), AllMentions(qs, assignments);
            && Indexed(a, key, fold) == Indexed(b, key, fold)
            && forall d :: HasIdentity(EntriesOf(a, key, fold), d) == HasIdentity(EntriesOf(b, key, fold), d)
  {
    var a, b := AllMentions(ps, assignments), AllMentions(qs, assignments);
    forall m ensures m in a <==> m in b {
      MentionedByProjects(ps, assignments, m);
      MentionedByProjects(qs, assignments, m);
    }
    SameMentionsSameKeys(a, b, key, fold);
    EntriesAreChosen(a, key, fold);
    EntriesAreChosen(b, key, fold);
    forall d ensures HasIdentity(EntriesOf(a, key, fold), d) == HasIdentity(EntriesOf(b, key, fold), d) {
      ChosenMeansMentioned(a, key, d, fold);
      ChosenMeansMentioned(b, key, d, fold);
    }
  }

  predicate DistinctProjects(ps: seq<Project>) {
    forall i, j | 0 <= i < j < |ps| :: IdentityOf(ps[i]) != IdentityOf(ps[j])
  }

  lemma {:induction false} OwnMentions(p: Project, members: seq<Member>, assignments: seq<Assignment>)
    ensures forall m | m in MemberMentions(p, members) :: m.project == p
    ensures forall m | m in AssignmentMentions(p, assignments) :: m.project == p
    decreases |members| + |assignments|
  {
    if members == [] {
    } else {
      OwnMentions(p, members[1..], assignments);
    }
    if assignments != [] { OwnMentions(p, members, assignments[1..]); }
  }

  /** With distinct projects, a person's entry for a project is decided by that project
      alone: its members first, then its assignments, then its manager. */
  lemma {:induction false} ChosenWithinProject(ps: seq<Project>, assignments: seq<Assignment>, p: Project,
                                               key: string, fold: string -> string)
    requires p in ps && DistinctProjects(ps)
    ensures Chosen(AllMentions(ps, assignments), key, IdentityOf(p), fold)
            == Chosen(Mentions(p, assignments), key, IdentityOf(p), fold)
  {
    ChosenOfMore(Mentions(ps[0], assignments), AllMentions(ps[1..], assignments), key, IdentityOf(p), fold);
    if p == ps[0] {
      NoSuchProject(ps[1..], assignments, IdentityOf(p), key, fold);
    } else {
      NotMentioned(ps[0], assignments, IdentityOf(p), key, fold);
      ChosenWithinProject(ps[1..], assignments, p, key, fold);
    }
  }

  lemma {:induction false} NotMentioned(p: Project, assignments: seq<Assignment>, d: string, key: string,
                                        fold: string -> string)
    requires IdentityOf(p) != d
    ensures Chosen(Mentions(p, assignments), key, d, fold).None?
  {
    OwnMentions(p, p.members, assignments);
    ChosenMeansMentioned(Mentions(p, assignments), key, d, fold);
  }

  /** So with distinct projects even the roles do not depend on the arrival order: each
      person's list has the same entries, in some order. */
  lemma {:induction false} ArrivalOrderKeepsEntries(ps: seq<Project>, qs: seq<Project>, assignments: seq<Assignment>,
                                                    key: string, fold: string -> string, e: Entry)
    requires DistinctProjects(ps) && DistinctProjects(qs) && forall p :: p in ps <==> p in qs
    ensures e in EntriesOf(AllMentions(ps, assignments), key, fold)
            <==> e in EntriesOf(AllMentions(qs, assignments), key, fold)
  {
    EntriesAreChosen(AllMentions(ps, assignments), key, fold);
    EntriesAreChosen(AllMentions(qs, assignments), key, fold);
    var d := IdentityOf(e.project);
    if p :| p in ps && IdentityOf(p) == d {
      ChosenWithinProject(ps, assignments, p, key, fold);
      ChosenWithinProject(qs, assignments, p, key, fold);
    } else {
      NoSuchProject(ps, assignments, d, key, fold);
      NoSuchProject(qs, assignments, d, key, fold);
    }
  }

  lemma {:induction false} NoSuchProject(ps: seq<Project>, assignments: seq<Assignment>, d: string, key: string,
                                         fold: string -> string)
    requires forall p | p in ps :: IdentityOf(p) != d
    ensures Chosen(AllMentions(ps, assignments), key, d, fold).None?
  {
    var ms := AllMentions(ps, assignments);
    ChosenMeansMentioned(ms, key, d, fold);
    if m :| m in ms && IdentityOf(m.project) == d {
      MentionedByProjects(ps, assignments, m);
      var p :| p in ps && m in Mentions(p, assignments);
      OwnMentions(p, p.members, assignments);
    }
  }

  // ---------------------------------------------------------------- building the index

  /** The three dictionaries of the builder. */
  datatype Tables = Tables(index: map<string, seq<Entry>>, seen: map<string, set<string>>,
                           names: map<string, set<string>>)

  /** What the dictionaries show for one key, once `ms` has been filed. */
  ghost predicate KeyOk(t: Tables, ms: seq<Mention>, key: string, fold: string -> string) {
    && (key in t.index <==> key in t.seen) && (key in t.index <==> key in t.names)
    && (key in t.index <==> key != "" && Mentioned(ms, key, fold))
    && (key in t.index ==>
          && t.index[key] == EntriesOf(ms, key, fold)
          && (forall d :: d in t.seen[key] <==> HasIdentity(t.index[key], d))
          && t.names[key] == NamesOf(ms, key, fold))
  }

  ghost predicate AllKeysOk(t: Tables, ms: seq<Mention>, fold: string -> string) {
    forall key: string :: KeyOk(t, ms, key, fold)
  }

  class IndexBuilder {
    const fold: string -> string
    var index: map<string, seq<Entry>>
    var seen: map<string, set<string>>
    var names: map<string, set<string>>
    ghost var filed: seq<Mention>

    ghost predicate Valid() reads this {
      AllKeysOk(Tables(index, seen, names), filed, fold)
    }

    constructor (fold: string -> string)
      ensures Valid() && filed == [] && this.fold == fold
    {
      this.fold := fold;
      index, seen, names, filed := map[], map[], map[], [];
    }

    method Add(m: Mention)
      requires Valid()
      modifies this
      ensures Valid() && filed == old(filed) + [m]
    {
      var key, name := KeyOf(m.personId, fold), KeyOf(m.name, fold);
      var identity := IdentityOf(m.project);
      ghost var before, was := Tables(index, seen, names), filed;
      assert KeyOk(before, was, key, fold);
      filed := filed + [m];
      if key != "" {
        NoteName(key, name);
        FileProject(key, identity, Filed(m));
      }
      AddKeeps(before, Tables(index, seen, names), was, m, fold);
    }

    method NoteName(key: string, name: string)
      modifies this`names
      ensures var t := Tables(index, seen, old(names));
              names == t.names[key := NamesIn(t, key) + (if name != "" then {name} else {})]
    {
      if key !in names {
        names := names[key := {}];
      }
      if name != "" {
        names := names[key := names[key] + {name}];
      } else {
        assert names[key] + {} == names[key];
      }
    }

    method FileProject(key: string, identity: string, e: Entry)
      requires key in index <==> key in seen
      modifies this`index, this`seen
      ensures var t := Tables(old(index), old(seen), names);
              && seen == t.seen[key := SeenIn(t, key) + {identity}]
              && index == t.index[key := if identity in SeenIn(t, key) then EntriesIn(t, key)
                   else EntriesIn(t, key) + [e]]
    {
      if key !in index {
        index, seen := index[key := []], seen[key := {}];
      }
      if identity !in seen[key] {
        seen := seen[key := seen[key] + {identity}];
        index := index[key := index[key] + [e]];
      } else {
        assert seen[key] + {identity} == seen[key];
      }
    }

    /** Drops every person known under more than one name. */
    method DropAmbiguous()
      requires Valid()
      modifies this`index
      ensures RightIndex(index, filed, fold)
    {
      ghost var before := Tables(index, seen, names);
      assert index.Keys == names.Keys by {
        forall key ensures key in index <==> key in names { assert KeyOk(before, filed, key, fold); }
      }
      var todo := names.Keys;
      while todo != {}
        invariant todo <= names.Keys
        invariant forall key :: key in index <==> key in before.index && (key in todo || |names[key]| <= 1)
        invariant forall key | key in index :: index[key] == before.index[key]
      {
        var key :| key in todo;
        if |names[key]| > 1 {
          index := index - {key};
        }
        todo := todo - {key};
      }
      DropKeeps(before, index, filed, fold);
    }
  }

  /** The table entries of a key, as `setdefault` reads them. */
  function EntriesIn(t: Tables, key: string): seq<Entry> { if key in t.index then t.index[key] else [] }
  function SeenIn(t: Tables, key: string): set<string> { if key in t.seen then t.seen[key] else {} }
  function NamesIn(t: Tables, key: string): set<string> { if key in t.names then t.names[key] else {} }

  lemma {:induction false} AddKeepsOwnKey(t: Tables, t': Tables, ms: seq<Mention>, m: Mention, fold: string -> string)
    requires var key := KeyOf(m.personId, fold); key != "" && KeyOk(t, ms, key, fold)
    requires var key, identity, name := KeyOf(m.personId, fold), IdentityOf(m.project), KeyOf(m.name, fold);
             && key in t'.index && key in t'.seen && key in t'.names
             && t'.names[key] == NamesIn(t, key) + (if name != "" then {name} else {})
             && t'.seen[key] == SeenIn(t, key) + {identity}
             && t'.index[key] == if identity in SeenIn(t, key) then EntriesIn(t, key)
                  else EntriesIn(t, key) + [Filed(m)]
    ensures KeyOk(t', ms + [m], KeyOf(m.personId, fold), fold)
  {
    var key, identity := KeyOf(m.personId, fold), IdentityOf(m.project);
    NextMention(ms, m, key, fold);
    if key !in t.index { Unmentioned(ms, key, fold); }
    assert EntriesIn(t, key) == EntriesOf(ms, key, fold) && NamesIn(t, key) == NamesOf(ms, key, fold);
    assert forall d :: d in SeenIn(t, key) <==> HasIdentity(EntriesIn(t, key), d);
    forall d ensures d in t'.seen[key] <==> HasIdentity(t'.index[key], d) {
      if identity !in SeenIn(t, key) { IdentitiesOfMore(EntriesIn(t, key), Filed(m), d); }
    }
  }

  lemma {:induction false} IdentitiesOfMore(es: seq<Entry>, e: Entry, d: string)
    ensures HasIdentity(es + [e], d) <==> HasIdentity(es, d) || IdentityOf(e.project) == d
  {
    var more := es + [e];
    assert more[|es|] == e && forall i | 0 <= i < |es| :: more[i] == es[i];
  }

  lemma {:induction false} AddKeepsOtherKey(t: Tables, t': Tables, ms: seq<Mention>, m: Mention, k: string,
                                            fold: string -> string)
    requires KeyOk(t, ms, k, fold) && (k != KeyOf(m.personId, fold) || k == "")
    requires (k in t'.index <==> k in t.index) && (k in t'.seen <==> k in t.seen) && (k in t'.names <==> k in t.names)
    requires k in t.index && k in t.seen && k in t.names ==>
               t'.index[k] == t.index[k] && t'.seen[k] == t.seen[k] && t'.names[k] == t.names[k]
    ensures KeyOk(t', ms + [m], k, fold)
  {
    NextMention(ms, m, k, fold);
  }

  lemma {:induction false} AddKeeps(t: Tables, t': Tables, ms: seq<Mention>, m: Mention, fold: string -> string)
    requires AllKeysOk(t, ms, fold)
    requires var key, identity, name := KeyOf(m.personId, fold), IdentityOf(m.project), KeyOf(m.name, fold);
             if key == "" then t' == t
             else
               && t'.names == t.names[key := NamesIn(t, key) + (if name != "" then {name} else {})]
               && t'.seen == t.seen[key := SeenIn(t, key) + {identity}]
               && t'.index
                  == t.index[key := if identity in SeenIn(t, key) then EntriesIn(t, key)
                       else EntriesIn(t, key) + [Filed(m)]]
    ensures AllKeysOk(t', ms + [m], fold)
  {
    var key := KeyOf(m.personId, fold);
    forall k: string ensures KeyOk(t', ms + [m], k, fold) {
      assert KeyOk(t, ms, k, fold);
      if k == key && key != "" { AddKeepsOwnKey(t, t', ms, m, fold); } else { AddKeepsOtherKey(t, t', ms, m, k, fold); }
    }
  }

  lemma {:induction false} DropKeeps(t: Tables, index: map<string, seq<Entry>>, ms: seq<Mention>,
                                     fold: string -> string)
    requires AllKeysOk(t, ms, fold)
    requires forall key :: key in index <==> key in t.index && (key in t.names ==> |t.names[key]| <= 1)
    requires forall key | key in index :: index[key] == t.index[key]
    ensures RightIndex(index, ms, fold)
  {
    forall key: string
      ensures key in index <==> Indexed(ms, key, fold)
      ensures key in index ==> index[key] == EntriesOf(ms, key, fold)
    {
      assert KeyOk(t, ms, key, fold);
    }
    forall key | key in index
      ensures forall e :: e in index[key] <==> Chosen(ms, key, IdentityOf(e.project), fold) == Some(e)
      ensures forall i, j | 0 <= i < j < |index[key]| ::
                IdentityOf(index[key][i].project) != IdentityOf(index[key][j].project)
    {
      EntriesAreChosen(ms, key, fold);
    }
  }

  lemma {:induction false} NextMention(before: seq<Mention>, m: Mention, k: string, fold: string -> string)
    ensures var after := before + [m];
            && (Mentioned(after, k, fold) <==> Mentioned(before, k, fold) || Names(m, k, fold))
            && NamesOf(after, k, fold)
               == NamesOf(before, k, fold) + (if Names(m, k, fold)
                    && KeyOf(m.name, fold) != "" then {KeyOf(m.name, fold)} else {})
            && EntriesOf(after, k, fold)
               == if Names(m, k, fold) && !HasIdentity(EntriesOf(before, k, fold), IdentityOf(m.project))
                  then EntriesOf(before, k, fold) + [Filed(m)] else EntriesOf(before, k, fold)
  {
    var after := before + [m];
    assert after[..|before|] == before && after[|before|] == m;
    forall i | 0 <= i < |before| ensures after[i] == before[i] {}
  }

  lemma {:induction false} Unmentioned(ms: seq<Mention>, key: string, fold: string -> string)
    requires !Mentioned(ms, key, fold)
    ensures EntriesOf(ms, key, fold) == [] && NamesOf(ms, key, fold) == {}
  {
    if ms == [] {
    } else {
      var n := |ms| - 1;
      assert !Names(ms[n], key, fold);
      Unmentioned(ms[..n], key, fold);
    }
  }

  lemma {:induction false} MentionsOfMore(ps: seq<Project>, p: Project, assignments: seq<Assignment>)
    ensures AllMentions(ps + [p], assignments) == AllMentions(ps, assignments) + Mentions(p, assignments)
  {
    if ps == [] {
      assert ps + [p] == [p] && [p][1..] == [];
      assert AllMentions([p], assignments) == Mentions(p, assignments) + [];
    } else {
      assert (ps + [p])[1..] == ps[1..] + [p];
      MentionsOfMore(ps[1..], p, assignments);
      var head, tail := Mentions(ps[0], assignments), AllMentions(ps[1..], assignments);
      assert head + (tail + Mentions(p, assignments)) == (head + tail) + Mentions(p, assignments);
    }
  }

  /** Files every mention of one project. */
  method FileMentions(builder: IndexBuilder, mentions: seq<Mention>)
    requires builder.Valid()
    modifies builder
    ensures builder.Valid() && builder.filed == old(builder.filed) + mentions
  {
    for j := 0 to |mentions|
      invariant builder.Valid() && builder.filed == old(builder.filed) + mentions[..j]
    {
      builder.Add(mentions[j]);
      assert mentions[..j + 1] == mentions[..j] + [mentions[j]];
    }
    assert mentions[..|mentions|] == mentions;
  }

  /** `_build_index`: every project's members, assignments and manager are filed, in the
      order in which the projects arrived; then the ambiguous people are dropped. */
  method BuildIndex(ps: seq<Project>, assignments: seq<Assignment>, fold: string -> string)
    returns (index: map<string, seq<Entry>>)
    ensures RightIndex(index, AllMentions(ps, assignments), fold)
  {
    var builder := new IndexBuilder(fold);
    for i := 0 to |ps|
      invariant fresh(builder) && builder.Valid() && builder.filed == AllMentions(ps[..i], assignments)
    {
      assert ps[..i + 1] == ps[..i] + [ps[i]];
      MentionsOfMore(ps[..i], ps[i], assignments);
      FileMentions(builder, Mentions(ps[i], assignments));
    }
    assert ps[..|ps|] == ps;
    builder.DropAmbiguous();
    index := builder.index;
  }

  // ---------------------------------------------------------------- saving and looking up

  /** Whom a stored item names as its owner: its key may be missing, or hold a null. */
  datatype Owner = Missing | Null | Named(id: string)

  /** One item of a stored list; `Foreign` for anything that is not a record. */
  datatype Item = Foreign | Item(entry: Entry, owner: Owner)

  /** The stored text of a person's list, as it parses. */
  datatype Stored = Unreadable | Listed(items: seq<Item>)

  /** How an index is written to the table. */
  function Saved(es: seq<Entry>): Stored {
    Listed(seq(|es|, i requires 0 <= i < |es| => Item(es[i], Named(es[i].personId))))
  }

  /** The catalogue's tables. `Save` is one transaction: when it fails, nothing changes. */
  class CatalogueDb {
    var projects: map<string, Project>
    var persons: map<string, Stored>

    constructor ()
      ensures projects == map[] && persons == map[]
    {
      projects, persons := map[], map[];
    }

    method Save(ps: seq<Project>, index: map<string, seq<Entry>>, works: bool)
      modifies this
      ensures !works ==> projects == old(projects) && persons == old(persons)
      ensures works ==> persons == map k | k in index :: Saved(index[k])
      ensures works ==> forall id :: id in projects <==> exists i | 0 <= i < |ps| :: ps[i].id == id
      ensures works ==> forall id | id in projects ::
                exists i | 0 <= i < |ps| :: ps[i] == projects[id] && ps[i].id == id
                    && forall j | i < j < |ps| :: ps[j].id != id
    {
      if !works {
        return;
      }
      projects, persons := map[], map[];
      for n := 0 to |ps|
        invariant persons == map[]
        invariant forall id :: id in projects <==> exists i | 0 <= i < n :: ps[i].id == id
        invariant forall id | id in projects ::
                    exists i | 0 <= i < n :: ps[i] == projects[id] && ps[i].id == id
                        && forall j | i < j < n :: ps[j].id != id
      {
        projects := projects[ps[n].id := ps[n]];
      }
      ghost var table := projects;
      var todo := index.Keys;
      while todo != {}
        invariant todo <= index.Keys && projects == table
        invariant persons == map k | k in index && k !in todo :: Saved(index[k])
      {
        var k :| k in todo;
        persons := persons[k := Saved(index[k])];
        todo := todo - {k};
      }
    }

    /** The lookup, with its check that every item really belongs to the person. */
    method FindProjects(personId: string, fold: string -> string) returns (found: seq<Entry>)
      ensures found == Find(persons, personId, fold)
    {
      var key := KeyOf(personId, fold);
      if key == "" || key !in persons || persons[key].Unreadable? {
        return [];
      }
      var items := persons[key].items;
      for i := 0 to |items|
        invariant forall j | 0 <= j < i :: Belongs(items[j], key, fold)
      {
        if !Belongs(items[i], key, fold) {
          return [];
        }
      }
      for i := 0 to |items|
        invariant IsNumber(key) || forall j | 0 <= j < i :: items[j].owner != Missing
      {
        if items[i].owner == Missing && !IsNumber(key) {
          return [];
        }
      }
      found := seq(|items|, i requires 0 <= i < |items| => items[i].entry);
    }
  }

  /** An item that names no other owner. */
  predicate Belongs(item: Item, key: string, fold: string -> string) {
    item.Item? && (item.owner.Named? ==> KeyOf(item.owner.id, fold) == key)
  }

  predicate IsNumber(s: string) { s != "" && forall i | 0 <= i < |s| :: IsDigit(s[i]) }

  /** The whole stored list when every item belongs to the person, and nothing otherwise;
      items without an owner are trusted only for numeric ids. */
  function Find(persons: map<string, Stored>, personId: string, fold: string -> string): seq<Entry> {
    var key := KeyOf(personId, fold);
    if key == "" || key !in persons || persons[key].Unreadable? then []
    else
      var items := persons[key].items;
      if !(forall i | 0 <= i < |items| :: Belongs(items[i], key, fold)) then []
      else if !IsNumber(key) && exists i | 0 <= i < |items| :: items[i].owner == Missing then []
      else seq(|items|, i requires 0 <= i < |items| => items[i].entry)
  }

  lemma {:induction false} EntriesBelong(ms: seq<Mention>, key: string, fold: string -> string)
    ensures forall e | e in EntriesOf(ms, key, fold) :: KeyOf(e.personId, fold) == key
  {
    if ms == [] {
    } else {
      var n := |ms| - 1;
      EntriesBelong(ms[..n], key, fold);
      TrimIsTight(ms[n].personId);
    }
  }

  /** A saved list is found whole exactly when every entry belongs to the person. */
  lemma {:induction false} SavedIsFound(es: seq<Entry>, persons: map<string, Stored>, personId: string,
                                        fold: string -> string)
    requires KeyOf(personId, fold) != "" && KeyOf(personId, fold) in persons
             && persons[KeyOf(personId, fold)] == Saved(es)
    ensures Find(persons, personId, fold)
            == if forall e | e in es :: KeyOf(e.personId, fold) == KeyOf(personId, fold) then es else []
  {
    var key := KeyOf(personId, fold);
    var items := Saved(es).items;
    assert forall i | 0 <= i < |es| :: Belongs(items[i], key, fold) <==> KeyOf(es[i].personId, fold) == key;
    if forall i | 0 <= i < |items| :: Belongs(items[i], key, fold) {
      assert seq(|items|, i requires 0 <= i < |items| => items[i].entry) == es;
    } else {
      var i :| 0 <= i < |items| && !Belongs(items[i], key, fold);
      assert es[i] in es;
    }
  }

  /** The self-check of the lookup never discards a list that the builder made: whoever
      is indexed gets the whole list, and nobody else gets anything. */
  lemma {:induction false} SelfCheckPasses(ps: seq<Project>, assignments: seq<Assignment>,
                                           index: map<string, seq<Entry>>,
                        persons: map<string, Stored>, personId: string, fold: string -> string)
    requires RightIndex(index, AllMentions(ps, assignments), fold)
    requires persons == map k | k in index :: Saved(index[k])
    ensures var key, ms := KeyOf(personId, fold), AllMentions(ps, assignments);
            Find(persons, personId, fold) == if Indexed(ms, key, fold) then EntriesOf(ms, key, fold) else []
  {
    var key, ms := KeyOf(personId, fold), AllMentions(ps, assignments);
    EntriesBelong(ms, key, fold);
    if key in index {
      SavedIsFound(index[key], persons, personId, fold);
    }
  }
}
