/**
 * SectionsService over the section and task tables. Its write methods
 * return null instead of throwing when the database rejects a write;
 * which writes the database rejects (a foreign key, a lost connection) is
 * not modelled, so each write enters with a flag saying whether it fails.
 * A failed write changes nothing.
 *
 * `update` moves a section to another project and re-points the
 * section's tasks with it. The two writes are separate statements, not a
 * transaction: when the task move succeeds and the section write then
 * fails, the tasks stay moved and the caller gets null.
 */
module SectionsService {
  import opened Outcomes

  datatype Section = Section(id: nat, name: string, projectId: nat)

  /** The task columns the service touches. */
  datatype TaskRow = TaskRow(id: nat, title: string, projectId: nat, sectionId: Option<nat>)

  datatype CreateSectionDto = CreateSectionDto(name: string, projectId: nat)

  /** Every field optional; an absent field is left as it is. */
  datatype UpdateSectionDto = UpdateSectionDto(name: Option<string>, projectId: Option<nat>)

  /** `{projectId?}` */
  datatype SectionWhere = SectionWhere(projectId: Option<nat>)

  /** What update returns: undefined (no such section), null (a write failed), or the updated section. */
  datatype UpdateResult = Undefined | Null | Updated(section: Section)

  /**
   * The task table after `updateMany({where: {sectionId}, data: {projectId}})`:
   * the section's tasks point at `projectId`, every other row is as it was.
   */
  function TasksMoved(tasks: map<nat, TaskRow>, sectionId: nat, projectId: nat): (moved: map<nat, TaskRow>)
    ensures moved.Keys == tasks.Keys
    ensures forall t :: t in tasks && tasks[t].sectionId == Some(sectionId) ==> moved[t] == tasks[t].(projectId := projectId)
    ensures forall t :: t in tasks && tasks[t].sectionId != Some(sectionId) ==> moved[t] == tasks[t]
  {
    map t | t in tasks :: if tasks[t].sectionId == Some(sectionId) then tasks[t].(projectId := projectId) else tasks[t]
  }

  /** An updateMany of a section's tasks to the project they already point at changes nothing. */
  lemma TasksMovedToSameProject(tasks: map<nat, TaskRow>, sectionId: nat, projectId: nat)
    requires forall t :: t in tasks && tasks[t].sectionId == Some(sectionId) ==> tasks[t].projectId == projectId
    ensures TasksMoved(tasks, sectionId, projectId) == tasks
  {
    var moved := TasksMoved(tasks, sectionId, projectId);
    assert forall t :: t in tasks ==> moved[t] == tasks[t];
  }

  /** Moving twice to the same project is moving once. */
  lemma TasksMovedIdempotent(tasks: map<nat, TaskRow>, sectionId: nat, projectId: nat)
    ensures TasksMoved(TasksMoved(tasks, sectionId, projectId), sectionId, projectId) == TasksMoved(tasks, sectionId, projectId)
  {
    var once := TasksMoved(tasks, sectionId, projectId);
    var twice := TasksMoved(once, sectionId, projectId);
    assert forall t :: t in once ==> twice[t] == once[t];
  }

  /** The section after `update({where: {id}, data: dto})`: the given fields replace the old ones. */
  function Overwritten(section: Section, dto: UpdateSectionDto): (s: Section)
    ensures s.id == section.id
    ensures s.name == (if dto.name.Some? then dto.name.value else section.name)
    ensures s.projectId == (if dto.projectId.Some? then dto.projectId.value else section.projectId)
  {
    Section(section.id, dto.name.GetOr(section.name), dto.projectId.GetOr(section.projectId))
  }

  class SectionsService {
    var sections: map<nat, Section>
    var tasks: map<nat, TaskRow>
    var nextId: nat

    ghost predicate Valid()
      reads this
    {
      forall id :: id in sections ==> sections[id].id == id && id < nextId
    }

    constructor (tasks: map<nat, TaskRow>)
      ensures Valid() && sections == map[] && this.tasks == tasks
    {
      this.sections, this.tasks, this.nextId := map[], tasks, 0;
    }

    /** create: the new section, or null when the write fails. */
    method Create(dto: CreateSectionDto, fails: bool) returns (r: Option<Section>)
      requires Valid()
      modifies this
      ensures Valid() && tasks == old(tasks)
      ensures r.None? <==> fails
      ensures r.None? ==> sections == old(sections) && nextId == old(nextId)
      ensures r.Some? ==> && r.value == Section(old(nextId), dto.name, dto.projectId)
                          && old(nextId) !in old(sections)
                          && sections == old(sections)[old(nextId) := r.value]
    {
      if fails {
        return None;
      }
      var section := Section(nextId, dto.name, dto.projectId);
      sections := sections[nextId := section];
      nextId := nextId + 1;
      return Some(section);
    }

    /** findAll: the sections matching the filter. The ordering argument is accepted and not used. */
    function FindAll(where: SectionWhere, orderBy: Option<string>): (found: set<Section>)
      reads this
      ensures forall s :: s in found <==> s in sections.Values && (where.projectId.None? || s.projectId == where.projectId.value)
    {
      set s | s in sections.Values && (where.projectId.None? || s.projectId == where.projectId.value)
    }

    /** findOne: the section, or null. */
    function FindOne(id: nat): (r: Option<Section>)
      reads this
      requires Valid()
      ensures r.Some? <==> id in sections
      ensures r.Some? ==> r.value.id == id && r.value in sections.Values
    {
      if id in sections then Some(sections[id]) else None
    }

    /**
     * update: undefined for a missing section. Otherwise, when the body's
     * projectId is not the section's (an absent one never is), first
     * re-point the section's tasks, then overwrite the section. A failed
     * task move returns null with nothing changed; a failed section write
     * returns null after the tasks have moved.
     */
    method Update(id: nat, dto: UpdateSectionDto, tasksWriteFails: bool, sectionWriteFails: bool)
      returns (r: UpdateResult)
      requires Valid()
      modifies this
      ensures Valid() && nextId == old(nextId)
      ensures id !in old(sections) ==> r == Undefined && sections == old(sections) && tasks == old(tasks)
      ensures id in old(sections) ==>
                var section := old(sections)[id];
                var moves := dto.projectId != Some(section.projectId);
                && (moves && tasksWriteFails ==> r == Null && sections == old(sections) && tasks == old(tasks))
                && (moves && !tasksWriteFails && dto.projectId.Some? ==> tasks == TasksMoved(old(tasks), id, dto.projectId.value))
                && (!moves || dto.projectId.None? ==> tasks == old(tasks))
                && (!(moves && tasksWriteFails) && sectionWriteFails ==> r == Null && sections == old(sections))
                && (!(moves && tasksWriteFails) && !sectionWriteFails ==>
                      r == Updated(Overwritten(section, dto)) && sections == old(sections)[id := r.section])
    {
      var section := FindOne(id);
      if section.None? {
        return Undefined;
      }
      if dto.projectId != Some(section.value.projectId) {
        // an absent projectId is `undefined`: never the section's, and Prisma leaves the column alone
        if tasksWriteFails {
          return Null;
        }
        if dto.projectId.Some? {
          tasks := TasksMoved(tasks, section.value.id, dto.projectId.value);
        }
      }
      if sectionWriteFails {
        return Null;
      }
      var updated := Overwritten(section.value, dto);
      sections := sections[id := updated];
      return Updated(updated);
    }

    /** remove: the deleted section, or null when there is none or the write fails. */
    method Remove(id: nat, fails: bool) returns (r: Option<Section>)
      requires Valid()
      modifies this
      ensures Valid() && tasks == old(tasks) && nextId == old(nextId)
      ensures r.None? <==> id !in old(sections) || fails
      ensures r.None? ==> sections == old(sections)
      ensures r.Some? ==> r.value == old(sections)[id] && sections == old(sections) - {id}
    {
      if id !in sections || fails {
        return None;
      }
      var section := sections[id];
      sections := sections - {id};
      return Some(section);
    }
  }

  /**
   * The partial effect of update: when the move succeeds and the section
   * write fails, the caller gets null but the section's tasks already point
   * at the new project, while the section itself still names the old one.
   */
  method MoveWithoutSectionWrite(svc: SectionsService, id: nat, newProjectId: nat, t: nat)
    returns (r: UpdateResult)
    requires svc.Valid() && id in svc.sections && svc.sections[id].projectId != newProjectId
    requires t in svc.tasks && svc.tasks[t].sectionId == Some(id)
    modifies svc
    ensures r == Null
    ensures t in svc.tasks && svc.tasks[t].projectId == newProjectId
    ensures id in svc.sections && svc.sections[id].projectId != newProjectId
  {
    r := svc.Update(id, UpdateSectionDto(None, Some(newProjectId)), false, true);
  }
}
