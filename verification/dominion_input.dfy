/** What the dominion.ts turn loop reads from outside: the lines the player
    types (`ask`, `yesno`) and the numbers `Math.random` returns to
    `shuffle`.  Both are given up front as an `Env`; every operation that
    reads from it hands back what is left. */
module DominionInput {
  import opened DominionCatalog

  /** The player's answers in order, and the random draws in order, each
      already scaled to a whole number (`shuffle` only ever uses
      `floor(Math.random() * i)`, which `roll % i` covers). */
  datatype Env = Env(answers: seq<string>, rolls: seq<nat>)

  /** The result of an interactive step: it finished with a value and the
      rest of the input; or it is still waiting at a prompt when the
      answers run out; or it threw, ending the program. */
  datatype Run<+T> = Done(value: T, env: Env) | AwaitingInput | Crashed(error: string)
  {
    predicate IsFailure()
    {
      !Done?
    }

    function PropagateFailure<U>(): Run<U>
      requires !Done?
    {
      if AwaitingInput? then AwaitingInput else Crashed(error)
    }

    function Extract(): (T, Env)
      requires Done?
    {
      (value, env)
    }
  }

  /** `r` read no more answers than `env` holds. */
  predicate Within<T>(r: Run<T>, env: Env)
  {
    r.Done? ==> |r.env.answers| <= |env.answers|
  }

  /** `ask(question)`: the next answer. */
  function Ask(env: Env): (r: Run<string>)
    ensures r.Done? <==> |env.answers| > 0
    ensures r.Done? ==> r.value == env.answers[0] && r.env == env.(answers := env.answers[1..])
    ensures !r.Crashed?
  {
    if |env.answers| == 0 then AwaitingInput
    else Done(env.answers[0], env.(answers := env.answers[1..]))
  }

  predicate IsYes(answer: string)
  {
    Upper(answer) == "Y" || Upper(answer) == "YES"
  }

  predicate IsNo(answer: string)
  {
    Upper(answer) == "N" || Upper(answer) == "NO"
  }

  /** `yesno(question)`: asks until the answer is Y, YES, N or NO in any
      letter case. */
  function YesNo(env: Env): (r: Run<bool>)
    ensures !r.Crashed? && Within(r, env)
    ensures r.Done? ==> |r.env.answers| < |env.answers| && r.env.rolls == env.rolls
    decreases |env.answers|
  {
    if |env.answers| == 0 then AwaitingInput
    else
      var a := env.answers[0];
      var rest := env.(answers := env.answers[1..]);
      if IsYes(a) then Done(true, rest)
      else if IsNo(a) then Done(false, rest)
      else YesNo(rest)
  }

  /** The answer `yesno` settles on is the first one that is a yes or a no,
      and it is true exactly when that one is a yes. */
  lemma {:induction false} YesNoFirstDecisive(env: Env, k: nat)
    requires k < |env.answers| && (IsYes(env.answers[k]) || IsNo(env.answers[k]))
    requires forall i :: 0 <= i < k ==> !IsYes(env.answers[i]) && !IsNo(env.answers[i])
    ensures YesNo(env) == Done(IsYes(env.answers[k]), env.(answers := env.answers[k + 1..]))
    decreases k
  {
    if k > 0 {
      var rest := env.(answers := env.answers[1..]);
      assert rest.answers[k - 1] == env.answers[k];
      assert rest.answers[k..] == env.answers[k + 1..];
      YesNoFirstDecisive(rest, k - 1);
    }
  }

  // ---------------------------------------------------------------------
  // shuffle

  function Swap<T>(a: seq<T>, i: nat, j: nat): (r: seq<T>)
    requires i < |a| && j < |a|
    ensures |r| == |a|
  {
    a[i := a[j]][j := a[i]]
  }

  lemma SwapPermutes<T>(a: seq<T>, i: nat, j: nat)
    requires i < |a| && j < |a|
    ensures multiset(Swap(a, i, j)) == multiset(a)
  {
    if i != j {
      var b := a[i := a[j]];
      assert multiset(b) == multiset(a) - multiset{a[i]} + multiset{a[j]};
      assert multiset(b[j := a[i]]) == multiset(b) - multiset{b[j]} + multiset{a[i]};
    }
  }

  /** The first roll, or 0 once the script of rolls is used up. */
  function NextRoll(rolls: seq<nat>): nat
  {
    if |rolls| > 0 then rolls[0] else 0
  }

  function RestRolls(rolls: seq<nat>): (r: seq<nat>)
    ensures |r| == if |rolls| > 0 then |rolls| - 1 else 0
  {
    if |rolls| > 0 then rolls[1..] else []
  }

  /** `Math.floor(Math.random() * i)`: a position below `i`. */
  function Pick(roll: nat, i: nat): (j: nat)
    requires i > 0
    ensures j < i
  {
    roll % i
  }

  /** The `while (i > 0)` loop of `shuffle` from a given `i`: pick
      `j = roll % i`, lower `i`, swap positions `i` and `j`. */
  function ShuffleFrom<T>(a: seq<T>, i: nat, rolls: seq<nat>): (r: (seq<T>, seq<nat>))
    requires i <= |a|
    ensures |r.0| == |a|
    decreases i
  {
    if i == 0 then (a, rolls)
    else ShuffleFrom(Swap(a, i - 1, Pick(NextRoll(rolls), i)), i - 1, RestRolls(rolls))
  }

  lemma {:induction false} ShuffleFromPermutes<T>(a: seq<T>, i: nat, rolls: seq<nat>)
    requires i <= |a|
    ensures multiset(ShuffleFrom(a, i, rolls).0) == multiset(a)
    decreases i
  {
    if i > 0 {
      var j := Pick(NextRoll(rolls), i);
      var b := Swap(a, i - 1, j);
      assert ShuffleFrom(a, i, rolls) == ShuffleFrom(b, i - 1, RestRolls(rolls));
      SwapPermutes(a, i - 1, j);
      ShuffleFromPermutes(b, i - 1, RestRolls(rolls));
    }
  }

  /** `shuffle(array)`: the array in some order, and the rolls left over. */
  function Shuffle<T>(a: seq<T>, rolls: seq<nat>): (r: (seq<T>, seq<nat>))
    ensures |r.0| == |a|
  {
    ShuffleFrom(a, |a|, rolls)
  }

  /** Shuffling only reorders. */
  lemma ShufflePermutes<T>(a: seq<T>, rolls: seq<nat>)
    ensures multiset(Shuffle(a, rolls).0) == multiset(a)
  {
    ShuffleFromPermutes(a, |a|, rolls);
  }
}
