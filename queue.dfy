/** Queue membership: is a job of this exact name with matching parameters
    waiting in the server's queue snapshot? */
module Queue {
  import opened Matching

  /** One queue entry: `task.name` and the parameters of `actions[0]`. */
  datatype QueueItem = QueueItem(taskName: string, parameters: seq<Param>)

  /** The decoded body of the queue listing: its `items`, in order. */
  datatype QueueSnapshot = QueueSnapshot(items: seq<QueueItem>)

  /** `items.filter(e => e.task.name === jobName)`: keeps exactly the entries
      whose task name is the job name, compared case-sensitively. */
  function ItemsNamed(items: seq<QueueItem>, jobName: string): (r: seq<QueueItem>)
    ensures |r| <= |items|
    ensures forall it :: it in r <==> it in items && it.taskName == jobName
  {
    if items == [] then []
    else if items[0].taskName == jobName then [items[0]] + ItemsNamed(items[1..], jobName)
    else ItemsNamed(items[1..], jobName)
  }

  /** `some(jobData => isAllJobParamsPresent(jobData, params))`. */
  function AnyItemMatches(items: seq<QueueItem>, expected: Expected): (r: bool)
    ensures r <==> exists it :: it in items && AllParamsPresent(it.parameters, expected)
  {
    if items == [] then false
    else AllParamsPresent(items[0].parameters, expected) || AnyItemMatches(items[1..], expected)
  }

  /** The job is waiting in the queue iff some entry carries exactly its name
      and its parameters match the expected ones. */
  function IsJobInQueue(queue: QueueSnapshot, jobName: string, expected: Expected): (r: bool)
    ensures r <==> exists it :: it in queue.items && it.taskName == jobName && AllParamsPresent(it.parameters, expected)
  {
    AnyItemMatches(ItemsNamed(queue.items, jobName), expected)
  }

  /** An empty snapshot never holds the job. */
  lemma EmptyQueueNeverHolds(jobName: string, expected: Expected)
    ensures !IsJobInQueue(QueueSnapshot([]), jobName, expected)
  {
  }

  /** Without an entry of exactly that name the job is not queued, whatever
      the parameters. */
  lemma UnnamedJobNotQueued(queue: QueueSnapshot, jobName: string, expected: Expected)
    requires forall it :: it in queue.items ==> it.taskName != jobName
    ensures !IsJobInQueue(queue, jobName, expected)
  {
  }

  /** Names are compared exactly, unlike parameters: an entry "Deploy" does not
      hold the job "deploy", even with nothing expected. */
  lemma NameComparisonIsCaseSensitive()
    ensures IsJobInQueue(QueueSnapshot([QueueItem("Deploy", [])]), "Deploy", [])
    ensures !IsJobInQueue(QueueSnapshot([QueueItem("Deploy", [])]), "deploy", [])
  {
    EmptyExpectedAlwaysMatches([]);
  }

  /** Entries of other jobs, anywhere in the snapshot, never change the answer. */
  lemma {:induction false} OtherJobsIgnored(items: seq<QueueItem>, others: seq<QueueItem>, jobName: string, expected: Expected)
    requires forall it :: it in others ==> it.taskName != jobName
    ensures IsJobInQueue(QueueSnapshot(items + others), jobName, expected) == IsJobInQueue(QueueSnapshot(items), jobName, expected)
    ensures IsJobInQueue(QueueSnapshot(others + items), jobName, expected) == IsJobInQueue(QueueSnapshot(items), jobName, expected)
  {
    assert forall it :: it in items + others <==> it in items || it in others;
    assert forall it :: it in others + items <==> it in items || it in others;
  }
}
