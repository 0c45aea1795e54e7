/** The records the site stores and displays (types.ts). Optional TypeScript
    fields become `Option`, string unions become enumerations. */
module Types {
  import opened Wrappers

  datatype ProjectCategory = AI | WebApp | Software | Tool

  datatype Project = Project(
    id: string,
    title: string,
    description: string,
    technologies: seq<string>,
    imageUrl: string,
    link: string,
    featured: Option<bool>,
    category: ProjectCategory)

  datatype SkillCategory = Languages | WebDevelopment | Database | DevOpsAndTools | AIAndML

  /** `level` is a percentage; nothing in the record type bounds it, only the
      admin slider that edits it does. */
  datatype Skill = Skill(name: string, level: int, category: SkillCategory, icon: Option<string>)

  /** Who wrote a chat turn: the visitor or the assistant. */
  datatype Role = User | Model

  /** A chat turn; an absent `isError` flag reads as false. */
  datatype ChatMessage = ChatMessage(role: Role, text: string, isError: bool)

  datatype Experience = Experience(
    id: string,
    role: string,
    company: string,
    period: string,
    description: string,
    skills: seq<string>)
}
