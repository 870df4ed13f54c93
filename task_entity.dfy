/** The task record (task.entity.ts), as stored and as sent to the dashboard.
    Timestamps and the loaded relations are not part of this model. */
module TaskEntity {
  import opened Common

  datatype TaskStatus = TODO | IN_PROGRESS | DONE

  datatype TaskCategory = WORK | PERSONAL

  datatype Task = Task(
    id: string,
    title: string,
    description: Option<string>,
    status: TaskStatus,
    category: Option<TaskCategory>,
    position: int,
    ownerId: string,
    organizationId: string)

  /** The column default of `status`. */
  const DefaultStatus: TaskStatus := TODO
}
