/**
 The client's side of asynchronous copies: wait objects, the completion queue they
 share, and the wait that pulls completions until it meets its own.

 Memory is a map from addresses to the wait objects allocated there, so touching an
 object after its deletion is not expressible without a proof that it is still there.
 The answer a server gives to a request is a parameter of issuing it; the queue hands
 undelivered completions over in any order.  The waits for backup, restore and delete
 have the same shape.
 */
module CompletionQueue {
  type Addr = nat

  const NULL: Addr := 0

  const FAM_ERR_INVALID := 4
  const FAM_ERR_RPC := 11

  /** What arrives with a completion: the RPC failed, or the server answered with an error code. */
  datatype Answer = RpcFailed | Answered(errorcode: int)

  /** Fam_Copy_Wait_Object; `answer` is meaningless until the request completes. */
  datatype WaitObject = WaitObject(isCompleted: bool, answer: Answer)

  datatype Outcome = Success | Exception(error: int)

  function OutcomeOf(answer: Answer): (r: Outcome)
    ensures r == Success <==> answer == Answered(0)
  {
    match answer
    case RpcFailed => Exception(FAM_ERR_RPC)
    case Answered(code) => if code != 0 then Exception(code) else Success
  }

  type Objects = map<Addr, WaitObject>
  type Answers = map<Addr, Answer>

  /** An object is either completed or has one completion on its way. */
  ghost predicate Matched(objects: Objects, undelivered: Answers) {
    && NULL !in objects
    && undelivered.Keys <= objects.Keys
    && forall a :: a in objects ==> (objects[a].isCompleted <==> a !in undelivered)
  }

  /** The answers to all requests issued and not yet waited for, delivered or not. */
  ghost function AllAnswers(objects: Objects, undelivered: Answers): Answers {
    map a | a in objects :: if a in undelivered then undelivered[a] else objects[a].answer
  }

  /** Handing a completion over changes no answer, and the queue is one shorter. */
  lemma DeliveryKeepsAnswers(objects: Objects, undelivered: Answers, got: Addr)
    requires Matched(objects, undelivered) && got in undelivered
    ensures var objects', undelivered' := objects[got := WaitObject(true, undelivered[got])], undelivered - {got};
      && Matched(objects', undelivered') && |undelivered'| < |undelivered| && |objects'| == |objects|
      && AllAnswers(objects', undelivered') == AllAnswers(objects, undelivered)
  {
    var objects', undelivered' := objects[got := WaitObject(true, undelivered[got])], undelivered - {got};
    assert objects'.Keys == objects.Keys;
    assert undelivered.Keys == undelivered'.Keys + {got};
    assert |undelivered'.Keys| < |undelivered.Keys|;
  }

  lemma DeletionKeepsOthers(objects: Objects, undelivered: Answers, a: Addr)
    requires Matched(objects, undelivered) && a in objects && objects[a].isCompleted
    ensures Matched(objects - {a}, undelivered) && |objects - {a}| + 1 == |objects|
    ensures AllAnswers(objects - {a}, undelivered) == AllAnswers(objects, undelivered) - {a}
    ensures AllAnswers(objects, undelivered)[a] == objects[a].answer
  {
    assert objects.Keys == (objects - {a}).Keys + {a};
    assert |objects.Keys| == |(objects - {a}).Keys| + 1;
  }

  /** A request still waited for has a completion on its way, so the queue is not empty. */
  lemma QueueNotEmpty(objects: Objects, undelivered: Answers, a: Addr)
    requires Matched(objects, undelivered) && a in objects && !objects[a].isCompleted
    ensures exists b :: b in undelivered
  {
    assert a in undelivered;
  }

  class Client {
    var objects: Objects
    var undelivered: Answers             // completions not yet pulled from the queue
    var allocations: nat
    var deletions: nat

    ghost predicate Valid() reads this { Matched(objects, undelivered) && allocations == deletions + |objects| }

    ghost function Answers(): Answers reads this { AllAnswers(objects, undelivered) }

    constructor ()
      ensures Valid() && Answers() == map[] && allocations == 0
    {
      objects, undelivered, allocations, deletions := map[], map[], 0, 0;
    }

    /** copy: allocate a wait object, anywhere that is free, and start the request. */
    method Issue(a: Addr, answer: Answer)
      requires Valid() && a != NULL && a !in objects
      modifies this
      ensures Valid() && Answers() == old(Answers())[a := answer]
      ensures allocations == old(allocations) + 1 && deletions == old(deletions)
    {
      objects := objects[a := WaitObject(false, RpcFailed)];
      undelivered := undelivered[a := answer];
      allocations := allocations + 1;
    }

    /** Next: the runtime fills in the answer of some object and hands over its address. */
    method Next() returns (got: Addr)
      requires Matched(objects, undelivered) && exists b :: b in undelivered
      modifies this`objects, this`undelivered
      ensures got in old(undelivered) && undelivered == old(undelivered) - {got}
      ensures objects == old(objects)[got := WaitObject(false, old(undelivered)[got])]
    {
      got :| got in undelivered;
      objects := objects[got := objects[got].(answer := undelivered[got])];
      undelivered := undelivered - {got};
    }

    method Delete(a: Addr)
      requires a in objects
      modifies this`objects, this`deletions
      ensures objects == old(objects) - {a} && deletions == old(deletions) + 1
    {
      objects := objects - {a};
      deletions := deletions + 1;
    }

    /** Returns the answer to its own request and deletes its own object, whatever else is
        delivered meanwhile; every other request keeps its answer. */
    method WaitForCopy(waitObj: Addr) returns (r: Outcome)
      requires Valid() && (waitObj == NULL || waitObj in objects)
      modifies this
      ensures Valid()
      ensures waitObj == NULL ==> r == Exception(FAM_ERR_INVALID) && unchanged(this)
      ensures waitObj != NULL ==>
        && r == OutcomeOf(old(Answers())[waitObj])
        && Answers() == old(Answers()) - {waitObj}
        && deletions == old(deletions) + 1 && allocations == old(allocations)
    {
      if waitObj == NULL {
        return Exception(FAM_ERR_INVALID);
      }
      if !objects[waitObj].isCompleted {
        var completed := NULL;
        while completed != waitObj
          invariant Valid() && Answers() == old(Answers())
          invariant allocations == old(allocations) && deletions == old(deletions)
          invariant waitObj in objects && (objects[waitObj].isCompleted <==> completed == waitObj)
          decreases |undelivered|
        {
          QueueNotEmpty(objects, undelivered, waitObj);
          ghost var before, queue := objects, undelivered;
          completed := Next();
          DeliveryKeepsAnswers(before, queue, completed);
          objects := objects[completed := objects[completed].(isCompleted := true)];
          assert objects == before[completed := WaitObject(true, queue[completed])];
        }
      }
      DeletionKeepsOthers(objects, undelivered, waitObj);
      r := OutcomeOf(objects[waitObj].answer);
      Delete(waitObj);
    }
  }

  ghost function Set(order: seq<Addr>): set<Addr> { set a | a in order }

  /** Waiting once for each of some requests, in any order, gives each its own answer. */
  method WaitForEach(client: Client, order: seq<Addr>) returns (results: seq<Outcome>)
    requires client.Valid()
    requires forall i :: 0 <= i < |order| ==> order[i] in client.objects
    requires forall i, j :: 0 <= i < j < |order| ==> order[i] != order[j]
    modifies client
    ensures client.Valid() && |results| == |order|
    ensures forall i :: 0 <= i < |order| ==> results[i] == OutcomeOf(old(client.Answers())[order[i]])
    ensures client.Answers() == old(client.Answers()) - Set(order)
    ensures client.deletions == old(client.deletions) + |order| && client.allocations == old(client.allocations)
  {
    results := [];
    for n := 0 to |order|
      invariant client.Valid() && |results| == n
      invariant forall i :: 0 <= i < n ==> results[i] == OutcomeOf(old(client.Answers())[order[i]])
      invariant client.Answers() == old(client.Answers()) - Set(order[..n])
      invariant client.deletions == old(client.deletions) + n && client.allocations == old(client.allocations)
    {
      assert order[n] in client.Answers();
      var r := client.WaitForCopy(order[n]);
      results := results + [r];
      assert order[..n + 1] == order[..n] + [order[n]];
    }
    assert order[..|order|] == order;
  }
}
