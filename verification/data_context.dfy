/** The content store behind the site (contexts/DataContext.tsx): three
    collections kept in memory, mirrored as JSON text under four keys of the
    browser's string key-value storage, loaded once behind a version tag and
    rewritten after every change once loading has finished.

    Storage is a `map<string, string>`. JSON is abstract: a `Codec` pairs a
    `stringify` with a partial `parse`, and `Faithful` is the round-trip
    property real JSON has for these records. */
module DataContext {
  import opened Wrappers
  import opened Types
  import Seqs

  type Storage = map<string, string>

  const VersionKey := "nexus_data_version"
  const ProjectsKey := "nexus_projects"
  const SkillsKey := "nexus_skills"
  const ExperienceKey := "nexus_experience"

  /** The keys the store owns; every other key of the storage is left alone. */
  const StoreKeys: set<string> := {VersionKey, ProjectsKey, SkillsKey, ExperienceKey}

  /** The version tag compiled into the site (constants.ts). */
  const DataVersion := "2025-12-13-2"

  datatype Codec<!T> = Codec(stringify: T -> string, parse: string -> Option<T>)

  /** Parsing what was stringified gives the value back, and the text is never
      empty (JSON text of an array is at least `[]`). */
  ghost predicate Faithful<T(!new)>(c: Codec<T>) {
    forall x: T {:trigger c.stringify(x)} :: c.stringify(x) != "" && c.parse(c.stringify(x)) == Some(x)
  }

  datatype Codecs = Codecs(
    projects: Codec<seq<Project>>,
    skills: Codec<seq<Skill>>,
    experience: Codec<seq<Experience>>)

  ghost predicate FaithfulCodecs(cs: Codecs) {
    Faithful(cs.projects) && Faithful(cs.skills) && Faithful(cs.experience)
  }

  datatype Content = Content(projects: seq<Project>, skills: seq<Skill>, experience: seq<Experience>)

  /** The compiled-in collections (constants.ts), abbreviated to a few entries;
      no property depends on what they hold. */
  const DefaultProjects: seq<Project> := [
    Project("7", "EconoMind", "", ["React", "Node", "Python"], "/images/economind.jpg", "#", Some(true), AI),
    Project("1", "Face Recognition Attendance system", "", ["Python", "OpenCV", "SQLite"], "/images/Attendance.JPG", "", Some(true), AI),
    Project("3", "EliteStyle", "", ["HTML", "CSS", "Javascript", "PHP", "MySQL"], "/images/elitestyle.png", "", None, WebApp)
  ]

  const DefaultSkills: seq<Skill> := [
    Skill("Python", 90, Languages, None),
    Skill("Node.js", 80, WebDevelopment, None),
    Skill("MySQL", 90, Database, None),
    Skill("Docker", 75, DevOpsAndTools, None),
    Skill("Groq API", 90, AIAndML, None)
  ]

  const DefaultExperience: seq<Experience> := [
    Experience("1", "Web Development Internship", "ElySpace", "July 2025", "", ["HTML", "CSS", "JavaScript", "MySQL"]),
    Experience("2", "PHP and MySQL Internship", "ApexPlanet Software Ltd.", "September 2025", "", ["PHP", "MySQL", "SQL"])
  ]

  const Defaults := Content(DefaultProjects, DefaultSkills, DefaultExperience)

  /** The persisted collections are trusted only under the current version tag. */
  predicate VersionMatches(storage: Storage) {
    VersionKey in storage && storage[VersionKey] == DataVersion
  }

  /** One collection at load time. A missing key and an empty string are both
      falsy in the source, so both fall back; so does text that does not parse. */
  function Adopt<T>(storage: Storage, trusted: bool, key: string, codec: Codec<T>, default: T): (r: T)
    ensures r == default || (trusted && key in storage && codec.parse(storage[key]) == Some(r))
    ensures trusted && key in storage && storage[key] != "" && codec.parse(storage[key]).Some? ==>
      r == codec.parse(storage[key]).value
    ensures !trusted || key !in storage || storage[key] == "" || codec.parse(storage[key]).None? ==>
      r == default
  {
    if trusted && key in storage && storage[key] != "" then
      codec.parse(storage[key]).GetOr(default)
    else
      default
  }

  /** Loading: a missing or different version tag discards every stored
      collection; otherwise each collection is adopted or defaulted on its own. */
  function Load(storage: Storage, cs: Codecs): (c: Content)
    ensures !VersionMatches(storage) ==> c == Defaults
    ensures c.projects == DefaultProjects
      || (ProjectsKey in storage && cs.projects.parse(storage[ProjectsKey]) == Some(c.projects))
    ensures c.skills == DefaultSkills
      || (SkillsKey in storage && cs.skills.parse(storage[SkillsKey]) == Some(c.skills))
    ensures c.experience == DefaultExperience
      || (ExperienceKey in storage && cs.experience.parse(storage[ExperienceKey]) == Some(c.experience))
  {
    var trusted := VersionMatches(storage);
    Content(
      Adopt(storage, trusted, ProjectsKey, cs.projects, DefaultProjects),
      Adopt(storage, trusted, SkillsKey, cs.skills, DefaultSkills),
      Adopt(storage, trusted, ExperienceKey, cs.experience, DefaultExperience))
  }

  /** `a` and `b` hold the same value, or both lack, key `k`. */
  predicate AgreeOn(a: Storage, b: Storage, k: string) {
    (k in a <==> k in b) && (k in a ==> a[k] == b[k])
  }

  /** Each collection depends only on the version tag and its own key: a
      missing or unparseable entry for one collection never changes the
      others. */
  lemma LoadIndependent(a: Storage, b: Storage, cs: Codecs)
    requires VersionMatches(a) == VersionMatches(b)
    ensures AgreeOn(a, b, ProjectsKey) ==> Load(a, cs).projects == Load(b, cs).projects
    ensures AgreeOn(a, b, SkillsKey) ==> Load(a, cs).skills == Load(b, cs).skills
    ensures AgreeOn(a, b, ExperienceKey) ==> Load(a, cs).experience == Load(b, cs).experience
  {
  }

  /** With a matching version, a stored collection that parses is adopted as is. */
  lemma LoadAdoptsParsed(storage: Storage, cs: Codecs, ps: seq<Project>, ss: seq<Skill>, es: seq<Experience>)
    requires VersionMatches(storage)
    requires ProjectsKey in storage && storage[ProjectsKey] != "" && cs.projects.parse(storage[ProjectsKey]) == Some(ps)
    requires SkillsKey in storage && storage[SkillsKey] != "" && cs.skills.parse(storage[SkillsKey]) == Some(ss)
    requires ExperienceKey in storage && storage[ExperienceKey] != "" && cs.experience.parse(storage[ExperienceKey]) == Some(es)
    ensures Load(storage, cs) == Content(ps, ss, es)
  {
  }

  datatype Store = Store(content: Content, isLoaded: bool)

  /** The provider's state before loading: three empty lists. */
  const Unloaded := Store(Content([], [], []), false)

  /** The save effect. It does nothing until loading has finished; after that
      it writes the version tag and all three collections and leaves every
      other key alone. */
  function Persist(storage: Storage, st: Store, cs: Codecs): (r: Storage)
    ensures !st.isLoaded ==> r == storage
    ensures st.isLoaded ==> r.Keys == storage.Keys + StoreKeys && VersionMatches(r)
    ensures forall k :: k in storage && k !in StoreKeys ==> k in r && r[k] == storage[k]
    ensures st.isLoaded ==>
      r[ProjectsKey] == cs.projects.stringify(st.content.projects)
      && r[SkillsKey] == cs.skills.stringify(st.content.skills)
      && r[ExperienceKey] == cs.experience.stringify(st.content.experience)
  {
    if !st.isLoaded then storage
    else
      storage[VersionKey := DataVersion]
             [ProjectsKey := cs.projects.stringify(st.content.projects)]
             [SkillsKey := cs.skills.stringify(st.content.skills)]
             [ExperienceKey := cs.experience.stringify(st.content.experience)]
  }

  /** What the save effect writes, the next load reads back. */
  lemma PersistThenLoad(storage: Storage, st: Store, cs: Codecs)
    requires FaithfulCodecs(cs)
    requires st.isLoaded
    ensures Load(Persist(storage, st, cs), cs) == st.content
  {
    var r := Persist(storage, st, cs);
    var c := st.content;
    assert r[ProjectsKey] == cs.projects.stringify(c.projects);
    assert r[SkillsKey] == cs.skills.stringify(c.skills);
    assert r[ExperienceKey] == cs.experience.stringify(c.experience);
    LoadAdoptsParsed(r, cs, c.projects, c.skills, c.experience);
  }

  /** `updateProject`: every project whose id matches is replaced, all others
      stay where they are. */
  function UpdateProject(ps: seq<Project>, p: Project): (r: seq<Project>)
    ensures |r| == |ps|
    ensures forall i :: 0 <= i < |ps| ==> r[i] == (if ps[i].id == p.id then p else ps[i])
  {
    if ps == [] then []
    else [if ps[0].id == p.id then p else ps[0]] + UpdateProject(ps[1..], p)
  }

  /** An update whose id matches nothing changes nothing. */
  lemma UpdateProjectNoMatch(ps: seq<Project>, p: Project)
    requires forall i :: 0 <= i < |ps| ==> ps[i].id != p.id
    ensures UpdateProject(ps, p) == ps
  {
  }

  /** `addProject`: the new project goes in front; ids are not checked. */
  function AddProject(ps: seq<Project>, p: Project): (r: seq<Project>)
    ensures |r| == |ps| + 1 && r[0] == p && r[1..] == ps
  {
    [p] + ps
  }

  function HasOtherId(id: string): Project -> bool {
    (p: Project) => p.id != id
  }

  /** `deleteProject`: removes every project with that id and keeps the
      others, each as often as it occurs, in order. */
  function DeleteProject(ps: seq<Project>, id: string): (r: seq<Project>)
    ensures forall i :: 0 <= i < |r| ==> r[i].id != id && r[i] in ps
    ensures forall i :: 0 <= i < |ps| && ps[i].id != id ==> ps[i] in r
    ensures Seqs.IsSubsequence(r, ps)
    ensures (forall i :: 0 <= i < |ps| ==> ps[i].id != id) ==> r == ps
    ensures forall p :: multiset(r)[p] == if p.id == id then 0 else multiset(ps)[p]
  {
    Seqs.FilterCounts(ps, HasOtherId(id));
    Seqs.FilterIsSubsequence(ps, HasOtherId(id));
    Seqs.FilterMembers(ps, HasOtherId(id));
    Seqs.FilterKeepsAll(ps, HasOtherId(id));
    Seqs.Filter(ps, HasOtherId(id))
  }

  /** Adding a project under a fresh id and deleting that id restores the list. */
  lemma AddThenDelete(ps: seq<Project>, p: Project)
    requires forall i :: 0 <= i < |ps| ==> ps[i].id != p.id
    ensures DeleteProject(AddProject(ps, p), p.id) == ps
  {
    assert ([p] + ps)[1..] == ps;
    Seqs.FilterKeepsAll(ps, HasOtherId(p.id));
  }

  /** `updateSkill`: the skill at position `index` is replaced; any other
      index, including one out of range, leaves the list as it was. */
  function UpdateSkill(ss: seq<Skill>, s: Skill, index: int): (r: seq<Skill>)
    ensures |r| == |ss|
    ensures forall i :: 0 <= i < |ss| ==> r[i] == (if i == index then s else ss[i])
    decreases |ss|
  {
    if ss == [] then []
    else [if index == 0 then s else ss[0]] + UpdateSkill(ss[1..], s, index - 1)
  }

  /** `addSkill`: the new skill goes at the end. */
  function AddSkill(ss: seq<Skill>, s: Skill): (r: seq<Skill>)
    ensures |r| == |ss| + 1 && r[|ss|] == s && r[..|ss|] == ss
  {
    ss + [s]
  }

  /** `deleteSkill`: drops exactly the skill at position `index`, or nothing
      when `index` is out of range. */
  function DeleteSkill(ss: seq<Skill>, index: int): (r: seq<Skill>)
    ensures 0 <= index < |ss| ==> r == ss[..index] + ss[index + 1..]
    ensures !(0 <= index < |ss|) ==> r == ss
    decreases |ss|
  {
    if ss == [] then []
    else (if index == 0 then [] else [ss[0]]) + DeleteSkill(ss[1..], index - 1)
  }

  /** Deleting the skill just appended restores the list. */
  lemma AddThenDeleteSkill(ss: seq<Skill>, s: Skill)
    ensures DeleteSkill(AddSkill(ss, s), |ss|) == ss
  {
    assert (ss + [s])[..|ss|] == ss;
  }

  /** A change the admin panel can make. `ResetOp.rewritten` says whether the
      save effect runs again after the reset: it does when the reset changed
      some collection, and does not when all three were already the defaults. */
  datatype Mutation =
    | UpdateProjectOp(project: Project)
    | AddProjectOp(project: Project)
    | DeleteProjectOp(id: string)
    | UpdateSkillOp(skill: Skill, index: int)
    | AddSkillOp(skill: Skill)
    | DeleteSkillOp(index: int)
    | ResetOp(rewritten: bool)

  /** The in-memory effect of a mutation. */
  function Apply(c: Content, m: Mutation): (r: Content)
    ensures r.experience == (if m.ResetOp? then DefaultExperience else c.experience)
    ensures (m.UpdateSkillOp? || m.AddSkillOp? || m.DeleteSkillOp?) ==> r.projects == c.projects
    ensures (m.UpdateProjectOp? || m.AddProjectOp? || m.DeleteProjectOp?) ==> r.skills == c.skills
  {
    match m
    case UpdateProjectOp(p) => c.(projects := UpdateProject(c.projects, p))
    case AddProjectOp(p) => c.(projects := AddProject(c.projects, p))
    case DeleteProjectOp(id) => c.(projects := DeleteProject(c.projects, id))
    case UpdateSkillOp(s, i) => c.(skills := UpdateSkill(c.skills, s, i))
    case AddSkillOp(s) => c.(skills := AddSkill(c.skills, s))
    case DeleteSkillOp(i) => c.(skills := DeleteSkill(c.skills, i))
    case ResetOp(_) => Defaults
  }

  /** The provider's state together with the storage it mirrors to. */
  datatype Session = Session(store: Store, storage: Storage)

  /** The persisted mirror reloads to exactly the in-memory state. */
  ghost predicate Synced(s: Session, cs: Codecs) {
    s.store.isLoaded && Load(s.storage, cs) == s.store.content
  }

  /** Page start: the load effect adopts what the storage holds, and only then
      does the save effect write it back. */
  function Mount(storage: Storage, cs: Codecs): (s: Session)
    ensures s.store.isLoaded
    ensures !VersionMatches(storage) ==> s.store.content == Defaults
    ensures FaithfulCodecs(cs) ==> Synced(s, cs)
  {
    var st := Store(Load(storage, cs), true);
    PersistThenLoadAuto(storage, st, cs);
    Session(st, Persist(storage, st, cs))
  }

  lemma PersistThenLoadAuto(storage: Storage, st: Store, cs: Codecs)
    requires st.isLoaded
    ensures FaithfulCodecs(cs) ==> Load(Persist(storage, st, cs), cs) == st.content
  {
    if FaithfulCodecs(cs) {
      PersistThenLoad(storage, st, cs);
    }
  }

  /** A mutation followed by the save effect. `resetData` also removes the four
      keys; whether the save effect then writes them again depends on
      `rewritten`. */
  function Dispatch(s: Session, m: Mutation, cs: Codecs): (r: Session)
    ensures r.store == Store(Apply(s.store.content, m), s.store.isLoaded)
    ensures forall k :: k in s.storage && k !in StoreKeys ==> k in r.storage && r.storage[k] == s.storage[k]
  {
    var st := Store(Apply(s.store.content, m), s.store.isLoaded);
    if m.ResetOp? then
      var cleared := s.storage - StoreKeys;
      Session(st, if m.rewritten then Persist(cleared, st, cs) else cleared)
    else
      Session(st, Persist(s.storage, st, cs))
  }

  /** Every mutation keeps the mirror in sync: a reload after any sequence of
      admin changes shows exactly what the admin last saw. */
  lemma DispatchKeepsSynced(s: Session, m: Mutation, cs: Codecs)
    requires FaithfulCodecs(cs)
    requires Synced(s, cs)
    ensures Synced(Dispatch(s, m, cs), cs)
  {
    var r := Dispatch(s, m, cs);
    if m.ResetOp? && !m.rewritten {
      assert VersionKey !in r.storage;
    } else {
      PersistThenLoad(if m.ResetOp? then s.storage - StoreKeys else s.storage, r.store, cs);
    }
  }

  /** `resetData` yields the defaults, and so does the next page load, whether
      the keys stay removed or the save effect writes the defaults back. */
  lemma ResetThenReload(s: Session, rewritten: bool, cs: Codecs)
    requires FaithfulCodecs(cs)
    ensures Dispatch(s, ResetOp(rewritten), cs).store.content == Defaults
    ensures Load(Dispatch(s, ResetOp(rewritten), cs).storage, cs) == Defaults
  {
    var r := Dispatch(s, ResetOp(rewritten), cs);
    if rewritten && s.store.isLoaded {
      PersistThenLoad(s.storage - StoreKeys, r.store, cs);
    } else {
      assert VersionKey !in r.storage;
    }
  }

  const ProviderMissing := "useData must be used within a DataProvider"

  /** `useData`: outside a provider there is no store, and the hook fails
      with an error instead of handing back nothing. */
  function UseData(provider: Option<Store>): (r: Result<Store, string>)
    ensures r.Failure? <==> provider.None?
    ensures r.Failure? ==> r.error == ProviderMissing
    ensures r.Success? ==> r.value == provider.value
  {
    match provider
    case None => Failure(ProviderMissing)
    case Some(st) => Success(st)
  }
}
