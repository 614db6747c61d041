/** The process-wide visit counter behind the count endpoint. */
module Visits {
  import opened Decimal

  const VisitPrefix: string := "Visit count: "

  /** The text the endpoint answers after the counter reached `n`. */
  function VisitMessage(n: nat): (m: string)
    ensures |m| > |VisitPrefix| && m[..|VisitPrefix|] == VisitPrefix
    ensures IsNumeral(m[|VisitPrefix|..]) && ParseNat(m[|VisitPrefix|..]) == n
  {
    var m := VisitPrefix + NatToString(n);
    assert m[|VisitPrefix|..] == NatToString(n);
    ParseNatToString(n);
    m
  }

  /** Two different counts are never reported with the same text. */
  lemma VisitMessageInjective(a: nat, b: nat)
    ensures VisitMessage(a) == VisitMessage(b) ==> a == b
  {
  }

  /** The counter starts at zero when the process starts; each call to
      Increment is one visit. The lock around it is not modelled. */
  class VisitCounter {
    var count: nat

    constructor ()
      ensures count == 0
    {
      count := 0;
    }

    method Increment() returns (n: nat, message: string)
      modifies this
      ensures count == old(count) + 1
      ensures n == count && message == VisitMessage(n)
    {
      count := count + 1;
      n := count;
      message := VisitMessage(n);
    }
  }

  /** A fresh counter visited `calls` times in a row reports 1, 2, ...,
      calls, each with its own text, the last being the number of calls. */
  method VisitsFromStart(calls: nat) returns (reported: seq<nat>, messages: seq<string>)
    ensures |reported| == calls && |messages| == calls
    ensures forall i :: 0 <= i < calls ==> reported[i] == i + 1
    ensures forall i :: 0 <= i < calls ==> messages[i] == VisitMessage(i + 1)
    ensures forall i, j :: 0 <= i < j < calls ==> messages[i] != messages[j]
  {
    var counter := new VisitCounter();
    reported, messages := [], [];
    while |reported| < calls
      invariant |reported| == |messages| == counter.count <= calls
      invariant forall i :: 0 <= i < |reported| ==> reported[i] == i + 1
      invariant forall i :: 0 <= i < |messages| ==> messages[i] == VisitMessage(i + 1)
      decreases calls - |reported|
    {
      var n, message := counter.Increment();
      reported, messages := reported + [n], messages + [message];
    }
    forall i, j | 0 <= i < j < calls
      ensures messages[i] != messages[j]
    {
      VisitMessageInjective(i + 1, j + 1);
    }
  }
}
