/** A project, its events, and the rows that record them.
    Models the pure part of backend/relay/persistence/project_store.py. */
module Projects {
  import opened Wrappers
  import Text

  type Time = int

  datatype Json = Str(s: string) | Bool(b: bool) | Other

  datatype Member = Member(
    agentId: string, role: string, functionTitle: string, responsibilities: string,
    instructions: Option<string>, enabled: Option<bool>)

  datatype Project = Project(
    id: string, owner: string, name: string, computerId: string, workspaceSubpath: string,
    lead: Option<string>, members: seq<Member>, enabled: bool, version: nat,
    createdAt: Time, updatedAt: Time, archivedAt: Option<Time>)

  datatype Error =
    | NameRequired | ComputerRequired | NameTooLong | NameTaken | PatchUnsupported | EnabledInvalid
    | NotFound | VersionConflict | WriteConflict | IntegrityFailure

  const NAME_MAX_LENGTH := 120

  function RequiredText(value: Json, missing: Error, maxLength: Option<nat>): Result<string, Error> {
    if !value.Str? || Text.Strip(value.s) == "" then Err(missing)
    else if maxLength.Some? && |Text.Strip(value.s)| > maxLength.value then Err(NameTooLong)
    else Ok(Text.Strip(value.s))
  }

  // ----- creation

  datatype Payload = Payload(
    name: Json, computerId: Json, workspaceSubpath: Option<string>, lead: Option<string>,
    members: seq<Member>, enabled: Option<Json>)

  function NewProject(id: string, owner: string, now: Time, payload: Payload): Result<Project, Error> {
    match RequiredText(payload.name, NameRequired, Some(NAME_MAX_LENGTH))
    case Err(e) => Err(e)
    case Ok(name) =>
      match RequiredText(payload.computerId, ComputerRequired, None)
      case Err(e) => Err(e)
      case Ok(computer) =>
        var subpath :=
          if payload.workspaceSubpath.GetOr("") != "" then payload.workspaceSubpath.value else "projects/" + id;
        Ok(Project(id, owner, name, computer, subpath, payload.lead, payload.members,
                   payload.enabled != Some(Bool(false)), 1, now, now, None))
  }

  // ----- change

  /** A patch as it arrives. `unknownKeys` says that it names a field a patch may not touch. */
  datatype RawPatch = RawPatch(
    unknownKeys: bool, name: Option<Json>, lead: Option<Option<string>>, members: Option<seq<Member>>,
    enabled: Option<Json>)

  datatype Patch = Patch(
    name: Option<string>, lead: Option<Option<string>>, members: Option<seq<Member>>, enabled: Option<bool>)

  function NormalizePatch(raw: RawPatch): Result<Patch, Error> {
    if raw.unknownKeys then Err(PatchUnsupported)
    else
      var name := if raw.name.Some? then RequiredText(raw.name.value, NameRequired, Some(NAME_MAX_LENGTH)) else Ok("");
      if name.Err? then Err(name.error)
      else if raw.enabled.Some? && !raw.enabled.value.Bool? then Err(EnabledInvalid)
      else
        Ok(Patch(if raw.name.Some? then Some(name.value) else None, raw.lead, raw.members,
                 if raw.enabled.Some? then Some(raw.enabled.value.b) else None))
  }

  datatype Change = Update(patch: Patch, at: Time) | Archive(at: Time)

  function Apply(change: Change, current: Project): Project {
    match change
    case Update(patch, at) =>
      current.(name := patch.name.GetOr(current.name), lead := patch.lead.GetOr(current.lead),
               members := patch.members.GetOr(current.members), enabled := patch.enabled.GetOr(current.enabled),
               version := current.version + 1, updatedAt := at)
    case Archive(at) =>
      current.(enabled := false, archivedAt := Some(at), updatedAt := at, version := current.version + 1)
  }

  // ----- events

  datatype Event = Created(project: Project) | Updated(patch: Patch, project: Project) | Archived(project: Project)

  function EventFor(change: Change, project: Project): Event {
    match change
    case Update(patch, _) => Updated(patch, project)
    case Archive(_) => Archived(project)
  }

  /** The change an event records, without looking at the project in its payload except for when
      it was made. */
  function Recorded(event: Event): Option<Change> {
    match event
    case Created(_) => None
    case Updated(patch, project) => Some(Update(patch, project.updatedAt))
    case Archived(project) => Some(Archive(project.updatedAt))
  }

  // ----- rows

  type Fold = string -> string

  datatype ProjectRow = ProjectRow(
    owner: string, name: string, nameKey: string, computerId: string, workspaceSubpath: string,
    lead: Option<string>, enabled: bool, snapshot: Project, eventVersion: nat,
    createdAt: Time, updatedAt: Time, archivedAt: Option<Time>)

  function RowOf(fold: Fold, p: Project): ProjectRow {
    ProjectRow(p.owner, p.name, fold(p.name), p.computerId, p.workspaceSubpath, p.lead, p.enabled, p,
               p.version, p.createdAt, p.updatedAt, p.archivedAt)
  }

  datatype MemberRow = MemberRow(
    role: string, functionTitle: string, responsibilities: string, instructions: Option<string>,
    enabled: bool, position: nat)

  function MemberRowOf(m: Member, position: nat): MemberRow {
    MemberRow(m.role, m.functionTitle, m.responsibilities, m.instructions, m.enabled.GetOr(true), position)
  }
}
