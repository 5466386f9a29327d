/**
 The selection policy shared by the three pattern loops of `extract_nid_fields`
 (nid_extractor.py). Each pattern, tried in list order, yields a verdict:
 it is skipped (no match, or the candidate is refused), it stores a
 provisional value and the loop goes on, or it stores a final value and the
 loop breaks. `Chosen` is the value the field holds once the loop is over;
 the lemmas below characterise it without reference to the loop.
 */
module Cascade {

  datatype Verdict = Skip | Provisional(value: string) | Final(value: string)

  /** The value held after running the remaining verdicts `vs` from `current`. */
  function Chosen(vs: seq<Verdict>, current: string): string {
    if vs == [] then current
    else match vs[0]
      case Skip => Chosen(vs[1..], current)
      case Provisional(v) => Chosen(vs[1..], v)
      case Final(v) => v
  }

  predicate NoFinal(vs: seq<Verdict>) {
    forall j :: 0 <= j < |vs| ==> !vs[j].Final?
  }

  /** The first final verdict decides, whatever came before it. */
  lemma {:induction false} ChosenFirstFinal(vs: seq<Verdict>, current: string, k: nat)
    requires k < |vs| && vs[k].Final?
    requires NoFinal(vs[..k])
    ensures Chosen(vs, current) == vs[k].value
  {
    if k > 0 {
      assert !vs[0].Final? by { assert vs[..k][0] == vs[0]; }
      assert vs[1..][..k - 1] == vs[..k][1..];
      var next := if vs[0].Provisional? then vs[0].value else current;
      ChosenFirstFinal(vs[1..], next, k - 1);
    }
  }

  /** Only skips: the starting value survives. */
  lemma {:induction false} ChosenAllSkip(vs: seq<Verdict>, current: string)
    requires forall j :: 0 <= j < |vs| ==> vs[j].Skip?
    ensures Chosen(vs, current) == current
  {
    if vs != [] {
      ChosenAllSkip(vs[1..], current);
    }
  }

  /** Without a final verdict, the last provisional one decides. */
  lemma {:induction false} ChosenLastProvisional(vs: seq<Verdict>, current: string, k: nat)
    requires k < |vs| && vs[k].Provisional?
    requires NoFinal(vs)
    requires forall j :: k < j < |vs| ==> vs[j].Skip?
    ensures Chosen(vs, current) == vs[k].value
  {
    if k == 0 {
      ChosenAllSkip(vs[1..], vs[0].value);
    } else {
      var next := if vs[0].Provisional? then vs[0].value else current;
      ChosenLastProvisional(vs[1..], next, k - 1);
    }
  }

  /** The result is the starting value or the value of some non-skipped verdict. */
  lemma {:induction false} ChosenOrigin(vs: seq<Verdict>, current: string)
    ensures var r := Chosen(vs, current);
      r == current || exists k :: 0 <= k < |vs| && !vs[k].Skip? && vs[k].value == r
  {
    if vs != [] && !vs[0].Final? {
      var next := if vs[0].Provisional? then vs[0].value else current;
      ChosenOrigin(vs[1..], next);
      var r := Chosen(vs[1..], next);
      if r != next {
        var k :| 0 <= k < |vs[1..]| && !vs[1..][k].Skip? && vs[1..][k].value == r;
        assert vs[k + 1] == vs[1..][k];
      }
    }
  }

  /** A skipped entry has no effect: the result is as if it were not in the list. */
  lemma {:induction false} ChosenIgnoresSkip(vs: seq<Verdict>, current: string, k: nat)
    requires k < |vs| && vs[k].Skip?
    ensures Chosen(vs, current) == Chosen(vs[..k] + vs[k + 1..], current)
  {
    if k > 0 {
      var next := if vs[0].Provisional? then vs[0].value else current;
      if !vs[0].Final? {
        ChosenIgnoresSkip(vs[1..], next, k - 1);
        assert vs[1..][..k - 1] + vs[1..][k..] == (vs[..k] + vs[k + 1..])[1..];
      }
    } else {
      assert vs[..0] + vs[1..] == vs[1..];
    }
  }

  /** Once a final verdict is reached, later entries are never consulted. */
  lemma {:induction false} ChosenStopsAtFinal(vs: seq<Verdict>, ws: seq<Verdict>, current: string, k: nat)
    requires k < |vs| && k < |ws| && vs[k].Final?
    requires vs[..k + 1] == ws[..k + 1]
    ensures Chosen(vs, current) == Chosen(ws, current)
  {
    assert vs[0] == vs[..k + 1][0] && ws[0] == ws[..k + 1][0];
    if k > 0 && !vs[0].Final? {
      var next := if vs[0].Provisional? then vs[0].value else current;
      assert vs[1..][..k] == vs[..k + 1][1..] && ws[1..][..k] == ws[..k + 1][1..];
      ChosenStopsAtFinal(vs[1..], ws[1..], next, k - 1);
    }
  }
}
