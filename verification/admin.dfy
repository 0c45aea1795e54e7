/** The admin panel (components/Admin.tsx), the only writer of the content
    store. It is a passphrase gate in front of project and skill editing. The
    panel is modelled as a state machine over user events; each event that
    reaches the store is a `DataContext.Dispatch`. */
module Admin {
  import opened Wrappers
  import opened Types
  import Text
  import Seqs
  import DataContext

  /** The hard-coded passphrase; a plain string comparison, not access control. */
  const Passphrase := "Bhat@019"

  /** The two tabs of the unlocked panel; the projects tab is shown first. */
  datatype Tab = ProjectsTab | SkillsTab

  /** The panel's state: the gate, the active tab, the record being edited
      (`editingProject`) and whether it is a new one (`isAddingProject`), and
      the mounted project form's own copy of the record (`None` while no form
      is on screen). The form copies the record only when it mounts. */
  datatype Panel = Panel(
    unlocked: bool,
    password: string,
    tab: Tab,
    editing: Option<Project>,
    adding: bool,
    draft: Option<Project>)

  /** A fresh panel: locked, empty password field, projects tab, no form open. */
  const Locked := Panel(false, "", ProjectsTab, None, false, None)

  /** One change typed into the project form. The form has no field for `id`,
      `link` or `featured`. */
  datatype FieldEdit =
    | EditTitle(title: string)
    | EditCategory(category: ProjectCategory)
    | EditImageUrl(url: string)
    | EditTechnologies(raw: string)
    | EditDescription(description: string)

  /** The values a 0-100 range input can deliver. */
  type Level = x: int | 0 <= x <= 100

  datatype Event =
    | TypePassword(text: string)
    | SubmitLogin
    | TabClick(tab: Tab)
    | AddProjectClick(now: nat)
    | EditClick(project: Project)
    | FormInput(edit: FieldEdit)
    | SaveClick
    | CancelClick
    | DeleteProjectClick(id: string)
    | SkillNameInput(index: int, name: string)
    | SkillLevelInput(index: int, level: Level)
    | SkillCategoryInput(index: int, category: SkillCategory)
    | AddSkillClick
    | DeleteSkillClick(index: int)
    | ResetClick(confirmed: bool, rewritten: bool)

  /** The record "Add Project" opens the form with; `now` is the clock
      reading whose decimal text becomes the id. */
  function NewProjectSeed(now: nat): (p: Project)
    ensures p.title == "" && p.description == "" && p.imageUrl == "" && p.link == ""
    ensures p.technologies == [] && p.category == WebApp && p.featured == None
    ensures p.id == Text.NatToString(now)
  {
    Project(Text.NatToString(now), "", "", [], "", "", None, WebApp)
  }

  /** The skill "Add Skill" appends. */
  const PlaceholderSkill := Skill("New Skill", 50, WebDevelopment, None)

  /** The technologies field: split on commas, trim every piece, keep empty
      pieces. */
  function ParseTechnologies(raw: string): (ts: seq<string>)
    ensures |ts| == Text.Count(raw, ',') + 1
    ensures forall i :: 0 <= i < |ts| ==> Text.IsTrimmed(ts[i]) && ',' !in ts[i]
  {
    var ps := Text.Split(raw, ',');
    Text.SplitLength(raw, ',');
    Text.SplitPiecesLackSeparator(raw, ',');
    TrimmedPieces(ps, ',');
    TrimAll(ps)
  }

  /** Trimmed pieces are trimmed, and lack what the pieces lacked. */
  lemma TrimmedPieces(ps: seq<string>, c: char)
    requires forall i :: 0 <= i < |ps| ==> c !in ps[i]
    ensures forall i :: 0 <= i < |ps| ==> Text.IsTrimmed(TrimAll(ps)[i]) && c !in TrimAll(ps)[i]
  {
    TrimAllKeepsOut(ps, c);
  }

  /** Every piece trimmed, in order. */
  function TrimAll(ps: seq<string>): (r: seq<string>)
    ensures |r| == |ps|
    ensures forall i :: 0 <= i < |r| ==> r[i] == Text.Trim(ps[i])
  {
    if ps == [] then [] else [Text.Trim(ps[0])] + TrimAll(ps[1..])
  }

  lemma ParseIsTrimOfSplit(raw: string)
    ensures ParseTechnologies(raw) == TrimAll(Text.Split(raw, ','))
  {
  }

  /** Trimming pieces that lack `c` gives pieces that lack `c`. */
  lemma TrimAllKeepsOut(ps: seq<string>, c: char)
    requires forall i :: 0 <= i < |ps| ==> c !in ps[i]
    ensures forall i :: 0 <= i < |ps| ==> c !in TrimAll(ps)[i]
  {
    var ts := TrimAll(ps);
    forall i | 0 <= i < |ts| ensures c !in ts[i] {
      TrimKeepsOut(ps[i], c);
    }
  }

  /** Trimming only removes characters. */
  lemma TrimKeepsOut(s: string, c: char)
    ensures c !in s ==> c !in Text.Trim(s)
  {
    var t := Text.TrimStart(s);
    assert t == s[|s| - |t|..];
    var r := Text.TrimEnd(t);
    assert r == t[..|r|];
  }

  /** How the field shows a list: the tags joined by ", ". */
  function FormatTechnologies(ts: seq<string>): string {
    Text.Join(ts, ", ")
  }

  /** Clearing the field yields one empty tag, not an empty list. */
  lemma EmptyFieldParsesToOneEmptyTag()
    ensures ParseTechnologies("") == [""]
  {
  }

  /** Every tag behind a single space. */
  function SpacedAll(ts: seq<string>): (r: seq<string>)
    ensures |r| == |ts|
    ensures forall i :: 0 <= i < |r| ==> r[i] == [' '] + ts[i]
  {
    if ts == [] then [] else [[' '] + ts[0]] + SpacedAll(ts[1..])
  }

  /** The pieces `split(',')` finds in a formatted list: the first tag, then
      every other tag behind its space. */
  function Padded(ts: seq<string>): seq<string>
    requires |ts| >= 1
  {
    [ts[0]] + SpacedAll(ts[1..])
  }

  /** ", " between tags is "," followed by a space that belongs to the next
      piece. */
  lemma {:induction false} JoinWithSpace(ts: seq<string>)
    requires |ts| >= 1
    ensures Text.Join(ts, ", ") == Text.Join(Padded(ts), ",")
  {
    if |ts| > 1 {
      JoinWithSpace(ts[1..]);
      var rest := SpacedAll(ts[2..]);
      var xs := [ts[1]] + rest;
      assert ts[1..][1..] == ts[2..];
      assert Padded(ts[1..]) == xs;
      Text.JoinPrepend(" ", xs, ",");
      assert SpacedAll(ts[1..]) == [[' '] + ts[1]] + rest;
      assert Padded(ts)[1..] == SpacedAll(ts[1..]);
    }
  }

  lemma SplitFormatted(ts: seq<string>)
    requires |ts| >= 1
    requires forall i :: 0 <= i < |ts| ==> ',' !in ts[i]
    ensures Text.Split(FormatTechnologies(ts), ',') == Padded(ts)
  {
    var pieces := Padded(ts);
    assert forall i :: 1 <= i < |pieces| ==> pieces[i] == [' '] + ts[i];
    JoinWithSpace(ts);
    Text.SplitJoin(pieces, ',');
  }

  /** Trimming the padded pieces gives back the tags: the first has
      nothing to trim, every other loses the space in front. */
  lemma TrimPadded(ts: seq<string>)
    requires |ts| >= 1
    requires forall i :: 0 <= i < |ts| ==> Text.IsTrimmed(ts[i])
    ensures TrimAll(Padded(ts)) == ts
  {
    var pieces := Padded(ts);
    forall i | 0 <= i < |ts| ensures Text.Trim(pieces[i]) == ts[i] {
      TrimPiece(ts, i);
    }
    TrimAllPointwise(pieces, ts);
  }

  /** Parsing what the field shows gives back the list, for any non-empty list
      of trimmed tags without commas. */
  lemma TechnologiesRoundTrip(ts: seq<string>)
    requires |ts| >= 1
    requires forall i :: 0 <= i < |ts| ==> Text.IsTrimmed(ts[i]) && ',' !in ts[i]
    ensures ParseTechnologies(FormatTechnologies(ts)) == ts
  {
    SplitFormatted(ts);
    ParseIsTrimOfSplit(FormatTechnologies(ts));
    TrimPadded(ts);
  }

  /** The field is re-rendered from the parsed list after every keystroke, so
      a space typed after the last tag is trimmed away at once: parsing the
      field with a trailing space gives back the same list. */
  lemma TrailingSpaceIsDropped(ts: seq<string>)
    requires |ts| >= 1
    requires forall i :: 0 <= i < |ts| ==> Text.IsTrimmed(ts[i]) && ',' !in ts[i]
    ensures ParseTechnologies(FormatTechnologies(ts) + " ") == ts
  {
    SplitFormattedWithSpace(ts);
    ParseIsTrimOfSplit(FormatTechnologies(ts) + " ");
    TrimPaddedWithSpace(ts);
  }

  /** The extra space stays in the last piece. */
  lemma SplitFormattedWithSpace(ts: seq<string>)
    requires |ts| >= 1
    requires forall i :: 0 <= i < |ts| ==> ',' !in ts[i]
    ensures var px := Padded(ts);
      Text.Split(FormatTechnologies(ts) + " ", ',') == px[..|px| - 1] + [px[|px| - 1] + " "]
  {
    var px := Padded(ts);
    var last := px[|px| - 1];
    SplitFormatted(ts);
    Text.SplitAppend(FormatTechnologies(ts), " ", ',');
    assert ',' !in last + " " by {
      assert last == ts[0] || last == [' '] + ts[|ts| - 1];
    }
    Text.SplitWithoutSeparator(last + " ", ',');
  }

  /** Trimming the pieces of a formatted list whose last piece got an extra
      space gives back the tags. */
  lemma TrimPaddedWithSpace(ts: seq<string>)
    requires |ts| >= 1
    requires forall i :: 0 <= i < |ts| ==> Text.IsTrimmed(ts[i])
    ensures var px := Padded(ts);
      TrimAll(px[..|px| - 1] + [px[|px| - 1] + " "]) == ts
  {
    var px := Padded(ts);
    var pieces := px[..|ts| - 1] + [px[|ts| - 1] + " "];
    forall i | 0 <= i < |ts| ensures Text.Trim(pieces[i]) == ts[i] {
      TrimPieceWithSpace(ts, i);
    }
    TrimAllPointwise(pieces, ts);
  }

  lemma TrimPieceWithSpace(ts: seq<string>, i: nat)
    requires i < |ts| && Text.IsTrimmed(ts[i])
    ensures var px := Padded(ts);
      Text.Trim((px[..|ts| - 1] + [px[|ts| - 1] + " "])[i]) == ts[i]
  {
    var px := Padded(ts);
    var pieces := px[..|ts| - 1] + [px[|ts| - 1] + " "];
    if i < |ts| - 1 {
      assert pieces[i] == px[i];
      TrimPiece(ts, i);
    } else {
      assert pieces[i] == px[i] + " ";
      TrimLastPiece(ts);
    }
  }

  /** `TrimAll` is determined piece by piece. */
  lemma TrimAllPointwise(ps: seq<string>, ts: seq<string>)
    requires |ps| == |ts|
    requires forall i :: 0 <= i < |ps| ==> Text.Trim(ps[i]) == ts[i]
    ensures TrimAll(ps) == ts
  {
    var r := TrimAll(ps);
    assert forall i :: 0 <= i < |r| ==> r[i] == ts[i];
  }

  lemma TrimPiece(ts: seq<string>, i: nat)
    requires i < |ts| && Text.IsTrimmed(ts[i])
    ensures Text.Trim(Padded(ts)[i]) == ts[i]
  {
    var p := Padded(ts)[i];
    if i == 0 {
      assert p == ts[0];
      Text.TrimTrimmed(ts[0]);
    } else {
      assert p == SpacedAll(ts[1..])[i - 1] == [' '] + ts[i];
      Text.TrimAfterSpace(ts[i]);
    }
  }

  lemma TrimLastPiece(ts: seq<string>)
    requires |ts| >= 1 && Text.IsTrimmed(ts[|ts| - 1])
    ensures Text.Trim(Padded(ts)[|ts| - 1] + " ") == ts[|ts| - 1]
  {
    var n := |ts|;
    var p := Padded(ts)[n - 1] + " ";
    if n == 1 {
      assert p == ts[0] + [' '];
      Text.TrimBeforeSpace(ts[0]);
    } else {
      assert Padded(ts)[n - 1] == SpacedAll(ts[1..])[n - 2] == [' '] + ts[n - 1];
      assert p == ([' '] + ts[n - 1]) + [' '];
      Text.TrimAroundSpaces(ts[n - 1]);
    }
  }

  /** One form change: only the edited field moves, and never `id`. */
  function ApplyFieldEdit(p: Project, e: FieldEdit): (r: Project)
    ensures r.id == p.id && r.link == p.link && r.featured == p.featured
    ensures e.EditTechnologies? ==> r.technologies == ParseTechnologies(e.raw)
    ensures !e.EditTechnologies? ==> r.technologies == p.technologies
  {
    match e
    case EditTitle(t) => p.(title := t)
    case EditCategory(c) => p.(category := c)
    case EditImageUrl(u) => p.(imageUrl := u)
    case EditTechnologies(raw) => p.(technologies := ParseTechnologies(raw))
    case EditDescription(d) => p.(description := d)
  }

  /** The login form's submit handler. */
  function Login(pn: Panel): (r: Panel)
    ensures r.unlocked <==> pn.unlocked || pn.password == Passphrase
    ensures r == pn.(unlocked := r.unlocked)
  {
    if pn.password == Passphrase then pn.(unlocked := true) else pn
  }

  /** An inline skill field edit: the skill shown at `index`, with one field
      changed, is written back to `index`. */
  function EditSkillAt(s: DataContext.Session, index: int, edited: Skill -> Skill, cs: DataContext.Codecs): DataContext.Session
  {
    var skills := s.store.content.skills;
    if 0 <= index < |skills| then
      DataContext.Dispatch(s, DataContext.UpdateSkillOp(edited(skills[index]), index), cs)
    else s
  }

  function WithName(name: string): Skill -> Skill { (k: Skill) => k.(name := name) }
  function WithLevel(level: Level): Skill -> Skill { (k: Skill) => k.(level := level) }
  function WithCategory(c: SkillCategory): Skill -> Skill { (k: Skill) => k.(category := c) }

  /** Some project in the list carries `id`. */
  predicate HasId(ps: seq<Project>, id: string) {
    exists i :: 0 <= i < |ps| && ps[i].id == id
  }

  /** Whether a project form is on screen: only on the projects tab, and
      there the add form while adding, otherwise the edit form in each row
      whose id is the edited record's. */
  predicate FormShown(pn: Panel, ps: seq<Project>) {
    pn.tab == ProjectsTab && pn.editing.Some? && (pn.adding || HasId(ps, pn.editing.value.id))
  }

  /** Whether the form `after` shows is the same mounted form as the one
      `before` showed: the add form stays the add form, and an edit form
      stays mounted in the row with the same key (the project id). */
  predicate SameForm(before: Panel, after: Panel) {
    before.draft.Some? && before.editing.Some? && after.editing.Some?
    && before.adding == after.adding
    && (after.adding || before.editing.value.id == after.editing.value.id)
  }

  /** The panel after a re-render: a form that stays mounted keeps its own
      copy, a form that mounts copies the edited record, and a form that
      unmounts loses what was typed into it. */
  function Reconcile(before: Panel, after: Panel, ps: seq<Project>): (r: Panel)
    ensures r == after.(draft := r.draft)
    ensures r.draft.Some? <==> FormShown(after, ps)
    ensures r.draft.Some? ==> r.draft == before.draft || r.draft == after.editing
    ensures FormShown(after, ps) && SameForm(before, after) ==> r.draft == before.draft
    ensures FormShown(after, ps) && !SameForm(before, after) ==> r.draft == after.editing
  {
    if !FormShown(after, ps) then after.(draft := None)
    else if SameForm(before, after) then after.(draft := before.draft)
    else after.(draft := after.editing)
  }

  /** The panel and the project list agree: a form copy exists exactly while
      a form is on screen, and an edit form's copy keeps the edited id. */
  predicate Consistent(pn: Panel, ps: seq<Project>) {
    (pn.draft.Some? <==> FormShown(pn, ps))
    && (pn.draft.Some? && !pn.adding ==> pn.draft.value.id == pn.editing.value.id)
  }

  /** Save or Cancel: `editingProject` and `isAddingProject` are cleared,
      which unmounts the form. */
  function Close(pn: Panel): Panel {
    pn.(editing := None, adding := false, draft := None)
  }

  /** One user event. While locked only the password field and its submit
      button exist; once unlocked the panel stays unlocked. The project
      controls exist only on the projects tab and the skill controls only on
      the skills tab; an event on a control that is not on screen changes
      nothing. "Edit" is offered on every row that does not show a form. */
  function Step(pn: Panel, s: DataContext.Session, ev: Event, cs: DataContext.Codecs): (r: (Panel, DataContext.Session))
    ensures !pn.unlocked ==> r.1 == s
    ensures pn.unlocked ==> r.0.unlocked
    ensures !pn.unlocked ==> (r.0.unlocked <==> ev.SubmitLogin? && pn.password == Passphrase)
  {
    if !pn.unlocked then
      match ev
      case TypePassword(t) => (pn.(password := t), s)
      case SubmitLogin => (Login(pn), s)
      case _ => (pn, s)
    else
      var ps := s.store.content.projects;
      var onProjects := pn.tab == ProjectsTab;
      var rowShowsForm := (id: string) => !pn.adding && pn.editing.Some? && pn.editing.value.id == id;
      match ev
      case TabClick(t) => (Reconcile(pn, pn.(tab := t), ps), s)
      case AddProjectClick(now) =>
        if !onProjects then (pn, s)
        else (Reconcile(pn, pn.(editing := Some(NewProjectSeed(now)), adding := true), ps), s)
      case EditClick(p) =>
        if !onProjects || p !in ps || rowShowsForm(p.id) then (pn, s)
        else (Reconcile(pn, pn.(editing := Some(p)), ps), s)
      case FormInput(e) =>
        (match pn.draft
         case None => pn
         case Some(d) => pn.(draft := Some(ApplyFieldEdit(d, e))), s)
      case SaveClick =>
        (match pn.draft
         case None => (pn, s)
         case Some(d) =>
           var op := if pn.adding then DataContext.AddProjectOp(d) else DataContext.UpdateProjectOp(d);
           (Close(pn), DataContext.Dispatch(s, op, cs)))
      case CancelClick => (if pn.draft.None? then pn else Close(pn), s)
      case DeleteProjectClick(id) =>
        if !onProjects || rowShowsForm(id) then (pn, s)
        else
          var s' := DataContext.Dispatch(s, DataContext.DeleteProjectOp(id), cs);
          (Reconcile(pn, pn, s'.store.content.projects), s')
      case SkillNameInput(i, name) => (pn, if onProjects then s else EditSkillAt(s, i, WithName(name), cs))
      case SkillLevelInput(i, level) => (pn, if onProjects then s else EditSkillAt(s, i, WithLevel(level), cs))
      case SkillCategoryInput(i, c) => (pn, if onProjects then s else EditSkillAt(s, i, WithCategory(c), cs))
      case AddSkillClick =>
        (pn, if onProjects then s else DataContext.Dispatch(s, DataContext.AddSkillOp(PlaceholderSkill), cs))
      case DeleteSkillClick(i) =>
        (pn, if onProjects then s else DataContext.Dispatch(s, DataContext.DeleteSkillOp(i), cs))
      case ResetClick(confirmed, rewritten) =>
        if !confirmed then (pn, s)
        else
          var s' := DataContext.Dispatch(s, DataContext.ResetOp(rewritten), cs);
          (Reconcile(pn, pn, s'.store.content.projects), s')
      case TypePassword(_) => (pn, s)
      case SubmitLogin => (pn, s)
  }

  /** A run of events, one after another. */
  function Run(pn: Panel, s: DataContext.Session, evs: seq<Event>, cs: DataContext.Codecs): (Panel, DataContext.Session)
    decreases |evs|
  {
    if evs == [] then (pn, s)
    else
      var r := Step(pn, s, evs[0], cs);
      Run(r.0, r.1, evs[1..], cs)
  }

  /** Whatever is typed and submitted, no store change happens until the exact
      passphrase has been submitted. */
  lemma {:induction false} NoMutationWhileLocked(pn: Panel, s: DataContext.Session, evs: seq<Event>, cs: DataContext.Codecs)
    requires !pn.unlocked
    requires forall i :: 0 <= i < |evs| ==> !evs[i].SubmitLogin?
    ensures Run(pn, s, evs, cs).1 == s && !Run(pn, s, evs, cs).0.unlocked
    decreases |evs|
  {
    if evs != [] {
      NoMutationWhileLocked(Step(pn, s, evs[0], cs).0, s, evs[1..], cs);
    }
  }

  /** Every event keeps the panel consistent with the project list it shows. */
  lemma StepKeepsConsistent(pn: Panel, s: DataContext.Session, ev: Event, cs: DataContext.Codecs)
    requires Consistent(pn, s.store.content.projects)
    ensures var r := Step(pn, s, ev, cs); Consistent(r.0, r.1.store.content.projects)
  {
    var r := Step(pn, s, ev, cs);
    if pn.unlocked && (ev.FormInput? || ev.SkillNameInput? || ev.SkillLevelInput? || ev.SkillCategoryInput?
                       || ev.AddSkillClick? || ev.DeleteSkillClick?) {
      assert r.1.store.content.projects == s.store.content.projects;
    }
  }

  /** "Add Project" opens the add form on the seed record. A second click
      while the add form is open re-seeds `editingProject` but leaves the
      mounted form and what was typed into it as they are. */
  lemma AddProjectOpensSeed(pn: Panel, s: DataContext.Session, now: nat, cs: DataContext.Codecs)
    requires pn.unlocked && pn.tab == ProjectsTab
    ensures var r := Step(pn, s, AddProjectClick(now), cs);
      r.1 == s && r.0.adding && r.0.editing == Some(NewProjectSeed(now))
    ensures !pn.adding ==> Step(pn, s, AddProjectClick(now), cs).0.draft == Some(NewProjectSeed(now))
    ensures pn.adding && pn.editing.Some? && pn.draft.Some? ==>
      Step(pn, s, AddProjectClick(now), cs).0.draft == pn.draft
  {
  }

  /** Saving routes to `addProject` while adding and to `updateProject`
      otherwise, with the form's own copy, and closes the form. */
  lemma SaveRoutes(pn: Panel, s: DataContext.Session, cs: DataContext.Codecs)
    requires pn.unlocked && pn.draft.Some?
    ensures var r := Step(pn, s, SaveClick, cs);
      r.0.draft == None && r.0.editing == None && !r.0.adding
    ensures var ps := Step(pn, s, SaveClick, cs).1.store.content.projects;
      ps == (if pn.adding then DataContext.AddProject(s.store.content.projects, pn.draft.value)
             else DataContext.UpdateProject(s.store.content.projects, pn.draft.value))
  {
  }

  /** Typing into the form never changes the id, so the save of an edit form
      replaces exactly the records with the edited record's id. */
  lemma {:induction false} FormInputKeepsId(pn: Panel, s: DataContext.Session, edits: seq<FieldEdit>, cs: DataContext.Codecs)
    requires pn.unlocked && pn.draft.Some?
    ensures var r := Run(pn, s, Seqs.Map(AsInput, edits), cs);
      r.1 == s && r.0.draft.Some? && r.0.draft.value.id == pn.draft.value.id
      && r.0 == pn.(draft := r.0.draft)
    decreases |edits|
  {
    var evs := Seqs.Map(AsInput, edits);
    if edits != [] {
      var next := Step(pn, s, evs[0], cs);
      assert Seqs.Map(AsInput, edits[1..]) == evs[1..];
      FormInputKeepsId(next.0, next.1, edits[1..], cs);
    }
  }

  function AsInput(e: FieldEdit): Event {
    FormInput(e)
  }

  /** Leaving the projects tab unmounts the form; coming back mounts a fresh
      one on the edited record, so everything typed since it opened is lost. */
  lemma TabRoundTripDiscardsTyping(pn: Panel, s: DataContext.Session, cs: DataContext.Codecs)
    requires pn.unlocked && pn.tab == ProjectsTab && pn.draft.Some?
    requires Consistent(pn, s.store.content.projects)
    ensures Run(pn, s, [TabClick(SkillsTab), TabClick(ProjectsTab)], cs) == (pn.(draft := pn.editing), s)
  {
    var evs := [TabClick(SkillsTab), TabClick(ProjectsTab)];
    var a := Step(pn, s, evs[0], cs);
    assert a == (pn.(tab := SkillsTab, draft := None), s);
    var b := Step(a.0, a.1, evs[1], cs);
    assert b == (pn.(draft := pn.editing), s);
    assert evs[1..] == [TabClick(ProjectsTab)];
    assert evs[1..][1..] == [];
  }

  /** "Add Project", then "Edit" on a listed record `p` (the add form stays
      open but `editingProject` becomes `p`), then a round trip through the
      skills tab remounts the add form on `p`: saving it adds a second copy
      of `p`, whose id is then in the list twice. */
  lemma AddThenEditDuplicatesId(pn: Panel, s: DataContext.Session, now: nat, p: Project, cs: DataContext.Codecs)
    requires pn.unlocked && pn.tab == ProjectsTab && !pn.adding
    requires p in s.store.content.projects
    ensures var evs := [AddProjectClick(now), EditClick(p), TabClick(SkillsTab), TabClick(ProjectsTab), SaveClick];
      var ps := Run(pn, s, evs, cs).1.store.content.projects;
      ps == [p] + s.store.content.projects && p in ps[1..]
  {
    var ps := s.store.content.projects;
    var seed := NewProjectSeed(now);
    var evs := [AddProjectClick(now), EditClick(p), TabClick(SkillsTab), TabClick(ProjectsTab), SaveClick];
    var p1 := pn.(editing := Some(seed), adding := true, draft := Some(seed));
    assert Step(pn, s, evs[0], cs) == (p1, s);
    var p2 := p1.(editing := Some(p));
    assert Step(p1, s, evs[1], cs) == (p2, s);
    var p3 := p2.(tab := SkillsTab, draft := None);
    assert Step(p2, s, evs[2], cs) == (p3, s);
    var p4 := p2.(draft := Some(p));
    assert Step(p3, s, evs[3], cs) == (p4, s);
    var r := Step(p4, s, evs[4], cs);
    assert r.1.store.content.projects == [p] + ps;
    RunFive(pn, s, evs, cs);
    assert ([p] + ps)[1..] == ps;
  }

  /** A run of five events is its five steps. */
  lemma RunFive(pn: Panel, s: DataContext.Session, evs: seq<Event>, cs: DataContext.Codecs)
    requires |evs| == 5
    ensures var r1 := Step(pn, s, evs[0], cs);
      var r2 := Step(r1.0, r1.1, evs[1], cs);
      var r3 := Step(r2.0, r2.1, evs[2], cs);
      var r4 := Step(r3.0, r3.1, evs[3], cs);
      Run(pn, s, evs, cs) == Step(r4.0, r4.1, evs[4], cs)
  {
    var r1 := Step(pn, s, evs[0], cs);
    var r2 := Step(r1.0, r1.1, evs[1], cs);
    var r3 := Step(r2.0, r2.1, evs[2], cs);
    var r4 := Step(r3.0, r3.1, evs[3], cs);
    var r5 := Step(r4.0, r4.1, evs[4], cs);
    assert evs[1..][1..][1..][1..][1..] == [];
    assert Run(r4.0, r4.1, evs[1..][1..][1..][1..], cs) == r5;
    assert Run(r3.0, r3.1, evs[1..][1..][1..], cs) == r5;
    assert Run(r2.0, r2.1, evs[1..][1..], cs) == r5;
    assert Run(r1.0, r1.1, evs[1..], cs) == r5;
  }

  /** Each inline skill control rewrites one field of the skill at its index;
      every other skill and every other field stays. */
  lemma SkillInputsEditOneField(pn: Panel, s: DataContext.Session, i: int, name: string, level: Level, c: SkillCategory, cs: DataContext.Codecs)
    requires pn.unlocked && pn.tab == SkillsTab
    requires 0 <= i < |s.store.content.skills|
    ensures var k := s.store.content.skills;
      Step(pn, s, SkillNameInput(i, name), cs).1.store.content.skills == k[i := k[i].(name := name)]
    ensures var k := s.store.content.skills;
      Step(pn, s, SkillLevelInput(i, level), cs).1.store.content.skills == k[i := k[i].(level := level)]
    ensures var k := s.store.content.skills;
      Step(pn, s, SkillCategoryInput(i, c), cs).1.store.content.skills == k[i := k[i].(category := c)]
  {
    NameInputEdits(pn, s, i, name, cs);
    LevelInputEdits(pn, s, i, level, cs);
    CategoryInputEdits(pn, s, i, c, cs);
  }

  lemma NameInputEdits(pn: Panel, s: DataContext.Session, i: int, name: string, cs: DataContext.Codecs)
    requires pn.unlocked && pn.tab == SkillsTab
    requires 0 <= i < |s.store.content.skills|
    ensures var k := s.store.content.skills;
      Step(pn, s, SkillNameInput(i, name), cs).1.store.content.skills == k[i := k[i].(name := name)]
  {
  }

  lemma LevelInputEdits(pn: Panel, s: DataContext.Session, i: int, level: Level, cs: DataContext.Codecs)
    requires pn.unlocked && pn.tab == SkillsTab
    requires 0 <= i < |s.store.content.skills|
    ensures var k := s.store.content.skills;
      Step(pn, s, SkillLevelInput(i, level), cs).1.store.content.skills == k[i := k[i].(level := level)]
  {
  }

  lemma CategoryInputEdits(pn: Panel, s: DataContext.Session, i: int, c: SkillCategory, cs: DataContext.Codecs)
    requires pn.unlocked && pn.tab == SkillsTab
    requires 0 <= i < |s.store.content.skills|
    ensures var k := s.store.content.skills;
      Step(pn, s, SkillCategoryInput(i, c), cs).1.store.content.skills == k[i := k[i].(category := c)]
  {
  }

  /** A skill level set through the slider lies in [0, 100]. */
  lemma SliderKeepsLevelInRange(pn: Panel, s: DataContext.Session, i: int, level: Level, cs: DataContext.Codecs)
    requires pn.unlocked && pn.tab == SkillsTab
    requires 0 <= i < |s.store.content.skills|
    ensures var k := Step(pn, s, SkillLevelInput(i, level), cs).1.store.content.skills;
      |k| == |s.store.content.skills| && 0 <= k[i].level <= 100
  {
  }

  /** "Add Skill" appends exactly the placeholder skill. */
  lemma AddSkillAppendsPlaceholder(pn: Panel, s: DataContext.Session, cs: DataContext.Codecs)
    requires pn.unlocked && pn.tab == SkillsTab
    ensures Step(pn, s, AddSkillClick, cs).1.store.content.skills == s.store.content.skills + [PlaceholderSkill]
  {
  }

  /** Reset runs only when the confirmation dialog returns true. */
  lemma ResetNeedsConfirmation(pn: Panel, s: DataContext.Session, rewritten: bool, cs: DataContext.Codecs)
    requires pn.unlocked
    ensures Step(pn, s, ResetClick(false, rewritten), cs).1 == s
    ensures Step(pn, s, ResetClick(true, rewritten), cs).1.store.content == DataContext.Defaults
  {
  }
}
