// What happens to one key of a map over a run: values are put under it, taken out to be
// used, or dropped unused.
module History {
  import opened Wire

  datatype Mark<+V> = Quiet | Put(value: V) | Take | Drop

  /** What the key holds after the marks. */
  function Held<V>(marks: seq<Mark<V>>): Option<V> {
    if marks == [] then None
    else
      var before := marks[..|marks| - 1];
      match marks[|marks| - 1]
      case Quiet => Held(before)
      case Put(v) => Some(v)
      case Take => None
      case Drop => None
  }

  /** The values taken out, in order; taking from an empty key takes nothing. */
  function Taken<V>(marks: seq<Mark<V>>): seq<V> {
    if marks == [] then []
    else
      var before := marks[..|marks| - 1];
      var held := Held(before);
      Taken(before) + if marks[|marks| - 1].Take? && held.Some? then [held.value] else []
  }

  // Nothing happens to the key strictly between the positions.
  predicate QuietBetween<V>(marks: seq<Mark<V>>, i: int, j: int)
    requires -1 <= i && j <= |marks|
  {
    forall m :: i < m < j ==> marks[m].Quiet?
  }

  // The value put at `i` is still there at `j`.
  predicate StillThere<V>(marks: seq<Mark<V>>, i: nat, j: nat)
    requires j <= |marks|
  {
    i < j && marks[i].Put? && QuietBetween(marks, i, j)
  }

  /** What becomes of a key that holds `before`. */
  function Marked<V>(before: Option<V>, mark: Mark<V>): Option<V> {
    match mark
    case Quiet => before
    case Put(v) => Some(v)
    case Take => None
    case Drop => None
  }

  function Lookup<K, V>(m: map<K, V>, k: K): Option<V> {
    if k in m then Some(m[k]) else None
  }

  lemma HeldNothing<V>()
    ensures Held<V>([]) == None && Taken<V>([]) == []
  {
  }

  lemma HeldTurn<V>(before: seq<Mark<V>>, mark: Mark<V>)
    ensures Held(before + [mark]) == Marked(Held(before), mark)
    ensures Taken(before + [mark])
         == Taken(before) + if mark.Take? && Held(before).Some? then [Held(before).value] else []
  {
    assert (before + [mark])[..|before|] == before;
  }

  /** The key holds exactly what was put there last, if nothing happened to it since. */
  lemma {:induction false} HeldIff<V(!new)>(marks: seq<Mark<V>>, v: V)
    ensures Held(marks) == Some(v) <==> exists i: nat :: StillThere(marks, i, |marks|) && marks[i].value == v
    decreases |marks|
  {
    if marks != [] {
      var n := |marks| - 1;
      var before := marks[..n];
      HeldIff(before, v);
      match marks[n]
      case Quiet =>
        if Held(before) == Some(v) {
          var i: nat :| StillThere(before, i, n) && before[i].value == v;
          assert StillThere(marks, i, |marks|);
        }
        if i: nat :| StillThere(marks, i, |marks|) && marks[i].value == v {
          assert StillThere(before, i, n) && before[i].value == v;
        }
      case Put(w) =>
        assert StillThere(marks, n, |marks|);
      case _ =>
    }
  }

  /** The same at any earlier position of a longer history. */
  lemma HeldAtIff<V(!new)>(marks: seq<Mark<V>>, j: nat, v: V)
    requires j <= |marks|
    ensures Held(marks[..j]) == Some(v) <==> exists i: nat :: StillThere(marks, i, j) && marks[i].value == v
  {
    hide Held;
    var before := marks[..j];
    HeldIff(before, v);
    if i: nat :| StillThere(before, i, j) && before[i].value == v {
      assert StillThere(marks, i, j) && marks[i].value == v;
    }
    if i: nat :| StillThere(marks, i, j) && marks[i].value == v {
      assert StillThere(before, i, j) && before[i].value == v;
    }
  }

  /**
   * At most once per staging. Between two takes that find something there is a put, and
   * the later one takes what was put last.
   */
  lemma BetweenTakes<V(!new)>(marks: seq<Mark<V>>, i: nat, j: nat) returns (m: nat)
    requires i < j < |marks| && marks[i].Take? && marks[j].Take? && Held(marks[..j]).Some?
    ensures i < m < j && StillThere(marks, m, j) && marks[m].value == Held(marks[..j]).value
  {
    hide Held;
    var before := marks[..j];
    var v := Held(before).value;
    HeldIff(before, v);
    m :| StillThere(before, m, j) && before[m].value == v;
    assert StillThere(marks, m, j);
  }

  function Puts<V>(marks: seq<Mark<V>>): nat {
    if marks == [] then 0
    else Puts(marks[..|marks| - 1]) + if marks[|marks| - 1].Put? then 1 else 0
  }

  /** Nothing is taken more often than something was put. */
  lemma {:induction false} NoMoreTakenThanPut<V>(marks: seq<Mark<V>>)
    ensures |Taken(marks)| + (if Held(marks).Some? then 1 else 0) <= Puts(marks)
    decreases |marks|
  {
    if marks != [] {
      NoMoreTakenThanPut(marks[..|marks| - 1]);
    }
  }

  // Puts, at least one, and nothing else.
  predicate OnlyPuts<V>(marks: seq<Mark<V>>) {
    && (forall i :: 0 <= i < |marks| ==> marks[i].Quiet? || marks[i].Put?)
    && (exists i :: 0 <= i < |marks| && marks[i].Put?)
  }

  predicate OnlyTakes<V>(marks: seq<Mark<V>>) {
    && (forall i :: 0 <= i < |marks| ==> marks[i].Quiet? || marks[i].Take?)
    && (exists i :: 0 <= i < |marks| && marks[i].Take?)
  }

  lemma {:induction false} PutsHold<V>(before: seq<Mark<V>>, puts: seq<Mark<V>>)
    requires forall i :: 0 <= i < |puts| ==> puts[i].Quiet? || puts[i].Put?
    ensures Taken(before + puts) == Taken(before)
    ensures Held(before + puts) == if Held(puts).Some? then Held(puts) else Held(before)
    ensures (exists i :: 0 <= i < |puts| && puts[i].Put?) ==> Held(puts).Some?
    decreases |puts|
  {
    if puts == [] {
      assert before + puts == before;
    } else {
      var n := |puts| - 1;
      var init, last := puts[..n], puts[n];
      PutsHold(before, init);
      assert puts == init + [last] && before + puts == (before + init) + [last];
      HeldTurn(init, last);
      HeldTurn(before + init, last);
      hide Held, Taken;
      if i :| 0 <= i < |puts| && puts[i].Put? && last.Quiet? {
        assert init[i].Put?;
      }
    }
  }

  lemma {:induction false} TakesEmpty<V>(before: seq<Mark<V>>, takes: seq<Mark<V>>)
    requires Held(before).Some?
    requires forall i :: 0 <= i < |takes| ==> takes[i].Quiet? || takes[i].Take?
    ensures var some := exists i :: 0 <= i < |takes| && takes[i].Take?;
            && Held(before + takes) == (if some then None else Held(before))
            && Taken(before + takes) == Taken(before) + (if some then [Held(before).value] else [])
    decreases |takes|
  {
    if takes == [] {
      assert before + takes == before;
    } else {
      var n := |takes| - 1;
      var init, last := takes[..n], takes[n];
      TakesEmpty(before, init);
      assert before + takes == (before + init) + [last];
      HeldTurn(before + init, last);
      hide Held, Taken;
      if i :| 0 <= i < |init| && init[i].Take? {
        assert takes[i].Take?;
      }
      if i :| 0 <= i < |takes| && takes[i].Take? && last.Quiet? {
        assert init[i].Take?;
      }
    }
  }

  /**
   * Exactly once: whatever came before, any number of puts and then any number of takes
   * take one value, the last one put, and leave nothing.
   */
  lemma ExactlyOnce<V>(before: seq<Mark<V>>, puts: seq<Mark<V>>, takes: seq<Mark<V>>)
    requires OnlyPuts(puts) && OnlyTakes(takes)
    ensures Held(puts).Some?
    ensures Taken(before + puts + takes) == Taken(before) + [Held(puts).value]
    ensures Held(before + puts + takes).None?
  {
    hide Held, Taken;
    PutsHold(before, puts);
    TakesEmpty(before + puts, takes);
  }
}
