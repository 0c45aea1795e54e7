/** The projects section (components/Projects.tsx): the category filter over
    the store's project list, the technology badges on each card and the
    empty-state message. */
module Projects {
  import opened Wrappers
  import opened Types
  import Seqs

  /** The filter buttons: everything, or one category. */
  datatype ProjectFilter = All | Only(category: ProjectCategory)

  predicate Matches(f: ProjectFilter, p: Project) {
    f.All? || p.category == f.category
  }

  function MatchesFn(f: ProjectFilter): Project -> bool {
    (p: Project) => Matches(f, p)
  }

  /** The projects the carousel shows: with `All` the whole list, otherwise
      exactly the projects of that category, in store order. */
  function FilteredProjects(ps: seq<Project>, f: ProjectFilter): (r: seq<Project>)
    ensures f.All? ==> r == ps
    ensures Seqs.IsSubsequence(r, ps)
    ensures forall i :: 0 <= i < |r| ==> Matches(f, r[i]) && r[i] in ps
    ensures forall i :: 0 <= i < |ps| && Matches(f, ps[i]) ==> ps[i] in r
  {
    Seqs.FilterIsSubsequence(ps, MatchesFn(f));
    Seqs.FilterMembers(ps, MatchesFn(f));
    Seqs.FilterKeepsAll(ps, MatchesFn(f));
    Seqs.Filter(ps, MatchesFn(f))
  }

  /** The four category views split the full list: every project lands in
      exactly the view of its own category, as often as it occurs. */
  lemma CategoryPartition(ps: seq<Project>)
    ensures multiset(ps) ==
      multiset(FilteredProjects(ps, Only(AI))) + multiset(FilteredProjects(ps, Only(WebApp)))
      + multiset(FilteredProjects(ps, Only(Software))) + multiset(FilteredProjects(ps, Only(Tool)))
  {
    SplitByCategory(ps);
  }

  /** The projects of category `c`, as the view filters them. */
  function OfCategory(ps: seq<Project>, c: ProjectCategory): seq<Project> {
    Seqs.Filter(ps, MatchesFn(Only(c)))
  }

  lemma {:induction false} SplitByCategory(ps: seq<Project>)
    ensures multiset(ps) ==
      multiset(OfCategory(ps, AI)) + multiset(OfCategory(ps, WebApp))
      + multiset(OfCategory(ps, Software)) + multiset(OfCategory(ps, Tool))
  {
    if ps != [] {
      var rest := ps[1..];
      SplitByCategory(rest);
      FilterStep(ps, AI);
      FilterStep(ps, WebApp);
      FilterStep(ps, Software);
      FilterStep(ps, Tool);
      Seqs.MultisetCons(ps);
      Regroup(ps[0], ps[0].category, multiset(rest),
        multiset(OfCategory(rest, AI)), multiset(OfCategory(rest, WebApp)),
        multiset(OfCategory(rest, Software)), multiset(OfCategory(rest, Tool)),
        multiset(OfCategory(ps, AI)), multiset(OfCategory(ps, WebApp)),
        multiset(OfCategory(ps, Software)), multiset(OfCategory(ps, Tool)));
    }
  }

  /** Putting one more project of category `c` in front of a partitioned
      list adds it to the part of `c` and to no other. */
  lemma Regroup(p: Project, c: ProjectCategory, m: multiset<Project>,
                a: multiset<Project>, w: multiset<Project>, s: multiset<Project>, t: multiset<Project>,
                a': multiset<Project>, w': multiset<Project>, s': multiset<Project>, t': multiset<Project>)
    requires m == a + w + s + t
    requires a' == (if c == AI then multiset{p} else multiset{}) + a
    requires w' == (if c == WebApp then multiset{p} else multiset{}) + w
    requires s' == (if c == Software then multiset{p} else multiset{}) + s
    requires t' == (if c == Tool then multiset{p} else multiset{}) + t
    ensures multiset{p} + m == a' + w' + s' + t'
  {
  }

  /** One step of a category view: the head counts if it is of the category. */
  lemma FilterStep(ps: seq<Project>, c: ProjectCategory)
    requires ps != []
    ensures multiset(OfCategory(ps, c)) ==
      (if ps[0].category == c then multiset{ps[0]} else multiset{}) + multiset(OfCategory(ps[1..], c))
  {
    var rest := OfCategory(ps[1..], c);
    if ps[0].category == c {
      assert OfCategory(ps, c) == [ps[0]] + rest;
    } else {
      assert OfCategory(ps, c) == rest;
    }
  }

  /** The views of two different categories share no project. */
  lemma CategoriesAreDisjoint(ps: seq<Project>, a: ProjectCategory, b: ProjectCategory)
    requires a != b
    ensures multiset(FilteredProjects(ps, Only(a))) * multiset(FilteredProjects(ps, Only(b))) == multiset{}
  {
    var x, y := FilteredProjects(ps, Only(a)), FilteredProjects(ps, Only(b));
    forall p | p in multiset(x) ensures p !in multiset(y) {
      assert p in x;
    }
  }

  /** The technology badges of a card: at most three tags, then a `+k` badge
      for the tags not shown. */
  datatype Badges = Badges(shown: seq<string>, more: Option<nat>)

  function TechBadges(ts: seq<string>): (b: Badges)
    ensures |b.shown| == if |ts| < 3 then |ts| else 3
    ensures b.shown == ts[..|b.shown|]
    ensures b.more.Some? <==> |ts| > 3
    ensures b.more.Some? ==> b.more.value == |ts| - 3
  {
    var k := if |ts| < 3 then |ts| else 3;
    Badges(ts[..k], if |ts| > 3 then Some(|ts| - 3) else None)
  }

  /** The badges account for every tag exactly once: the shown tags and the
      number behind `+k` add up to the list. */
  lemma BadgesAccountForEveryTag(ts: seq<string>)
    ensures var b := TechBadges(ts);
      ts == b.shown + ts[|b.shown|..] && |ts[|b.shown|..]| == b.more.GetOr(0)
  {
  }

  /** What the section renders: a card per shown project, or the empty-state
      message. */
  datatype View = View(cards: seq<(Project, Badges)>, emptyMessage: bool)

  function Render(ps: seq<Project>, f: ProjectFilter): (v: View)
    ensures |v.cards| == |FilteredProjects(ps, f)|
    ensures forall i :: 0 <= i < |v.cards| ==>
      v.cards[i].0 == FilteredProjects(ps, f)[i] && v.cards[i].1 == TechBadges(v.cards[i].0.technologies)
  {
    var shown := FilteredProjects(ps, f);
    View(seq(|shown|, i requires 0 <= i < |shown| => (shown[i], TechBadges(shown[i].technologies))),
         |shown| == 0)
  }

  /** The empty-state message appears exactly when no project matches the
      filter; with `All` that is exactly when the store is empty. */
  lemma EmptyMessageIffNoMatch(ps: seq<Project>, f: ProjectFilter)
    ensures Render(ps, f).emptyMessage <==> forall i :: 0 <= i < |ps| ==> !Matches(f, ps[i])
    ensures f.All? ==> (Render(ps, f).emptyMessage <==> ps == [])
  {
    var shown := FilteredProjects(ps, f);
    Seqs.FilterDropsAll(ps, MatchesFn(f));
    if !Render(ps, f).emptyMessage {
      assert Matches(f, shown[0]) && shown[0] in ps;
    }
  }
}
