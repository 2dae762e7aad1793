/** The task list page: its split of the loaded tasks into completed, pending and
    overdue, and the message shown when there are none. Parsing a due date string is
    a parameter; `None` stands for an invalid date, which compares false with
    everything. */
module TaskList {
  import opened Wrappers
  import opened Clock
  import opened Seqs
  import opened ClientTypes

  function CompletedTasks(tasks: seq<ClientTask>): seq<ClientTask> {
    Filter((t: ClientTask) => t.completed, tasks)
  }

  function PendingTasks(tasks: seq<ClientTask>): seq<ClientTask> {
    Filter((t: ClientTask) => !t.completed, tasks)
  }

  /** `!task.completed && task.dueDate && new Date(task.dueDate) < new Date()`. */
  predicate IsOverdue(t: ClientTask, now: Instant, parseDate: string -> Option<Instant>) {
    && !t.completed
    && t.dueDate.Some? && t.dueDate.value != ""
    && parseDate(t.dueDate.value).Some? && parseDate(t.dueDate.value).value < now
  }

  function OverdueTasks(tasks: seq<ClientTask>, now: Instant, parseDate: string -> Option<Instant>): seq<ClientTask> {
    Filter((t: ClientTask) => IsOverdue(t, now, parseDate), tasks)
  }

  /** Completed and pending split the list: together they hold every task exactly as
      often as the list does, and each keeps the list's order. */
  lemma CompletedPendingPartition(tasks: seq<ClientTask>)
    ensures |CompletedTasks(tasks)| + |PendingTasks(tasks)| == |tasks|
    ensures multiset(CompletedTasks(tasks)) + multiset(PendingTasks(tasks)) == multiset(tasks)
    ensures IsSubsequence(CompletedTasks(tasks), tasks) && IsSubsequence(PendingTasks(tasks), tasks)
  {
    FilterPartition((t: ClientTask) => t.completed, (t: ClientTask) => !t.completed, tasks);
    FilterIsSubsequence((t: ClientTask) => t.completed, tasks);
    FilterIsSubsequence((t: ClientTask) => !t.completed, tasks);
  }

  /** The overdue tasks are the pending ones due before now, in the same order: a
      subsequence of the pending list. */
  lemma OverdueWithinPending(tasks: seq<ClientTask>, now: Instant, parseDate: string -> Option<Instant>)
    ensures OverdueTasks(tasks, now, parseDate) == Filter((t: ClientTask) => IsOverdue(t, now, parseDate), PendingTasks(tasks))
    ensures IsSubsequence(OverdueTasks(tasks, now, parseDate), PendingTasks(tasks))
  {
    FilterOfFilter((t: ClientTask) => !t.completed, (t: ClientTask) => IsOverdue(t, now, parseDate), tasks);
    FilterIsSubsequence((t: ClientTask) => IsOverdue(t, now, parseDate), PendingTasks(tasks));
  }

  /** A task without a due date, or with an empty one, is never overdue, nor is a
      completed one. */
  lemma NoDueDateNeverOverdue(t: ClientTask, now: Instant, parseDate: string -> Option<Instant>)
    requires t.dueDate.None? || t.dueDate == Some("") || t.completed
    ensures !IsOverdue(t, now, parseDate)
  {
  }

  const AdjustFilters := "Tente ajustar os filtros para ver mais resultados"
  const CreateFirst := "Comece criando sua primeira tarefa!"

  /** The text under "Nenhuma tarefa encontrada" on an empty list. */
  function EmptyStateMessage(filters: ClientFilters): string {
    if KeyCount(filters) > 0 then AdjustFilters else CreateFirst
  }

  /** The list suggests adjusting the filters exactly when some filter key is set. */
  lemma EmptyStateMessageCorrect(filters: ClientFilters)
    ensures EmptyStateMessage(filters) == AdjustFilters <==> filters != NoFilters
    ensures EmptyStateMessage(NoFilters) == CreateFirst
  {
    assert |AdjustFilters| != |CreateFirst|;
  }
}
