/** What a step of a protocol can do. */
module Steps {
  /** A step is not possible now, dereferences a bad pointer, or is taken. */
  datatype Outcome<S> = Blocked | Fault | Next(s: S)
}

/** A stack threaded through the link fields of its own nodes. */
module IntrusiveStack {
  import opened Sequences

  /** The null pointer; a record is named by its index in the pool. */
  const NULL: int := -1

  function Top(stack: seq<int>, i: nat): int {
    if i < |stack| then stack[i] else NULL
  }

  /** Following `link` from `head` visits exactly the nodes of `stack`, in order, each once. */
  ghost predicate IsStack(head: int, link: seq<int>, stack: seq<int>) {
    && head == Top(stack, 0)
    && Distinct(stack)
    && forall i :: 0 <= i < |stack| ==> 0 <= stack[i] < |link| && link[stack[i]] == Top(stack, i + 1)
  }

  lemma PushKeepsStack(head: int, link: seq<int>, stack: seq<int>, n: int)
    requires IsStack(head, link, stack)
    requires 0 <= n < |link| && n !in stack && link[n] == head
    ensures IsStack(n, link, [n] + stack)
  {
    var grown := [n] + stack;
    forall i | 0 <= i < |grown| ensures 0 <= grown[i] < |link| && link[grown[i]] == Top(grown, i + 1) {
      assert i > 0 ==> grown[i] == stack[i - 1];
    }
  }

  /** Swinging the head from the top node to `next` pops that node exactly when `next` is its present link. */
  lemma PopKeepsStack(head: int, link: seq<int>, stack: seq<int>, next: int)
    requires IsStack(head, link, stack) && head != NULL
    ensures stack != [] && stack[0] == head && head !in stack[1..]
    ensures IsStack(next, link, stack[1..]) <==> next == link[head]
  {
    var rest := stack[1..];
    if next == link[head] {
      forall i | 0 <= i < |rest| ensures 0 <= rest[i] < |link| && link[rest[i]] == Top(rest, i + 1) {
        assert rest[i] == stack[i + 1];
      }
    }
  }
}
