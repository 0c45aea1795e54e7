/** The skills section (components/Skills.tsx): the compiled skill list
    grouped into one card per category, in a fixed category order, with
    empty categories not rendered. The section reads the compiled list
    (`DataContext.DefaultSkills`), never the store, so admin edits do not
    reach it. */
module Skills {
  import opened Types
  import Seqs
  import DataContext

  /** The order the category cards appear in. */
  const Categories: seq<SkillCategory> := [Languages, WebDevelopment, Database, DevOpsAndTools, AIAndML]

  /** The category list names every category exactly once. */
  lemma CategoriesAreComplete(c: SkillCategory)
    ensures c in Categories
    ensures forall i, j :: 0 <= i < j < |Categories| ==> Categories[i] != Categories[j]
  {
  }

  function InCategory(c: SkillCategory): Skill -> bool {
    (s: Skill) => s.category == c
  }

  /** `getSkillsByCategory`: exactly the skills of category `c`, in list
      order. */
  function SkillsByCategory(ss: seq<Skill>, c: SkillCategory): (r: seq<Skill>)
    ensures Seqs.IsSubsequence(r, ss)
    ensures forall i :: 0 <= i < |r| ==> r[i].category == c
    ensures forall i :: 0 <= i < |ss| && ss[i].category == c ==> ss[i] in r
  {
    Seqs.FilterIsSubsequence(ss, InCategory(c));
    Seqs.FilterMembers(ss, InCategory(c));
    Seqs.Filter(ss, InCategory(c))
  }

  lemma GroupStep(ss: seq<Skill>, c: SkillCategory)
    requires ss != []
    ensures multiset(SkillsByCategory(ss, c)) ==
      (if ss[0].category == c then multiset{ss[0]} else multiset{}) + multiset(SkillsByCategory(ss[1..], c))
  {
    var rest := SkillsByCategory(ss[1..], c);
    if ss[0].category == c {
      assert SkillsByCategory(ss, c) == [ss[0]] + rest;
    } else {
      assert SkillsByCategory(ss, c) == rest;
    }
  }

  /** The union of the groups of the listed categories. */
  function GroupsUnion(ss: seq<Skill>, cs: seq<SkillCategory>): multiset<Skill>
  {
    if cs == [] then multiset{} else multiset(SkillsByCategory(ss, cs[0])) + GroupsUnion(ss, cs[1..])
  }

  /** Adding one skill in front adds it to exactly one group among distinct
      categories: the group of its own category, if listed. */
  lemma {:induction false} GroupsUnionStep(ss: seq<Skill>, cs: seq<SkillCategory>)
    requires ss != []
    requires forall i, j :: 0 <= i < j < |cs| ==> cs[i] != cs[j]
    ensures GroupsUnion(ss, cs) ==
      (if ss[0].category in cs then multiset{ss[0]} else multiset{}) + GroupsUnion(ss[1..], cs)
  {
    if cs != [] {
      var x, rest := ss[0], ss[1..];
      GroupsUnionStep(ss, cs[1..]);
      GroupStep(ss, cs[0]);
      assert x.category == cs[0] ==> x.category !in cs[1..];
      assert x.category in cs <==> x.category == cs[0] || x.category in cs[1..];
      Merge(x, x.category == cs[0], x.category in cs[1..], x.category in cs,
        multiset(SkillsByCategory(rest, cs[0])), GroupsUnion(rest, cs[1..]),
        multiset(SkillsByCategory(ss, cs[0])), GroupsUnion(ss, cs[1..]));
    }
  }

  /** A skill added to at most one of two parts is added once to their sum. */
  lemma Merge(x: Skill, here: bool, later: bool, listed: bool,
              a: multiset<Skill>, b: multiset<Skill>, a': multiset<Skill>, b': multiset<Skill>)
    requires !(here && later) && (listed <==> here || later)
    requires a' == (if here then multiset{x} else multiset{}) + a
    requires b' == (if later then multiset{x} else multiset{}) + b
    ensures a' + b' == (if listed then multiset{x} else multiset{}) + (a + b)
  {
  }

  /** Every skill appears in exactly one group, as often as in the list: the
      groups partition the list. */
  lemma {:induction false} GroupsPartition(ss: seq<Skill>)
    ensures GroupsUnion(ss, Categories) == multiset(ss)
  {
    if ss != [] {
      GroupsPartition(ss[1..]);
      CategoriesAreComplete(ss[0].category);
      GroupsUnionStep(ss, Categories);
      Seqs.MultisetCons(ss);
    } else {
      NoSkillsNoGroups(ss, Categories);
    }
  }

  lemma {:induction false} NoSkillsNoGroups(ss: seq<Skill>, cs: seq<SkillCategory>)
    requires ss == []
    ensures GroupsUnion(ss, cs) == multiset{}
  {
    if cs != [] {
      NoSkillsNoGroups(ss, cs[1..]);
    }
  }

  /** A rendered category card: its category, its skills and the header
      count. */
  datatype Card = Card(category: SkillCategory, skills: seq<Skill>, count: nat)

  /** The cards for the listed categories, skipping those with no skill. */
  function CardsFor(ss: seq<Skill>, cs: seq<SkillCategory>): (cards: seq<Card>)
    ensures |cards| <= |cs|
    ensures forall i :: 0 <= i < |cards| ==>
      cards[i].count == |cards[i].skills| > 0 && cards[i].category in cs
      && cards[i].skills == SkillsByCategory(ss, cards[i].category)
  {
    if cs == [] then []
    else
      var group := SkillsByCategory(ss, cs[0]);
      var rest := CardsFor(ss, cs[1..]);
      if |group| == 0 then rest
      else
        [Card(cs[0], group, |group|)] + rest
  }

  function HasSkillsFn(ss: seq<Skill>): SkillCategory -> bool {
    (c: SkillCategory) => SkillsByCategory(ss, c) != []
  }

  function CardCategory(card: Card): SkillCategory {
    card.category
  }

  /** The cards shown are exactly the listed categories that have a skill, in
      list order: a category with no skill renders nothing. */
  lemma {:induction false} CardsShowNonEmptyCategories(ss: seq<Skill>, cs: seq<SkillCategory>)
    ensures Seqs.Map(CardCategory, CardsFor(ss, cs)) == Seqs.Filter(cs, HasSkillsFn(ss))
  {
    if cs != [] {
      CardsShowNonEmptyCategories(ss, cs[1..]);
      var group := SkillsByCategory(ss, cs[0]);
      var rest := CardsFor(ss, cs[1..]);
      if |group| != 0 {
        Seqs.MapCons(CardCategory, Card(cs[0], group, |group|), rest);
      }
    }
  }

  /** The section: one card per non-empty category of the compiled list. */
  function View(): seq<Card> {
    CardsFor(DataContext.DefaultSkills, Categories)
  }

  /** The total of the header counts. */
  function TotalCount(cards: seq<Card>): nat
  {
    if cards == [] then 0 else cards[0].count + TotalCount(cards[1..])
  }

  /** The header counts add up to the number of skills of the listed
      categories. */
  lemma {:induction false} CountsAddUp(ss: seq<Skill>, cs: seq<SkillCategory>)
    ensures TotalCount(CardsFor(ss, cs)) == |GroupsUnion(ss, cs)|
  {
    if cs != [] {
      CountsAddUp(ss, cs[1..]);
      var group := SkillsByCategory(ss, cs[0]);
      var rest := CardsFor(ss, cs[1..]);
      if |group| != 0 {
        var cards := [Card(cs[0], group, |group|)] + rest;
        assert cards[1..] == rest;
      }
    }
  }

  /** Every skill of the list is counted on exactly one card. */
  lemma EverySkillIsCountedOnce(ss: seq<Skill>)
    ensures TotalCount(CardsFor(ss, Categories)) == |ss|
  {
    CountsAddUp(ss, Categories);
    GroupsPartition(ss);
  }
}
