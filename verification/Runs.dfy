/** Continuing a run. */
module Runs {
  import opened ChatProtocol

  /** The state after the events `es`, from state `s` on. */
  function Steps(cfg: Config, s: State, es: seq<Event>): State {
    if es == [] then s else Step(cfg, Steps(cfg, s, es[..|es| - 1]), es[|es| - 1])
  }

  lemma {:induction false} OneMore(cfg: Config, s: State, es: seq<Event>, e: Event)
    ensures Steps(cfg, s, es + [e]) == Step(cfg, Steps(cfg, s, es), e)
  {
    assert (es + [e])[..|es|] == es;
  }

  lemma {:induction false} StepsJoin(cfg: Config, s: State, es: seq<Event>, more: seq<Event>)
    ensures Steps(cfg, s, es + more) == Steps(cfg, Steps(cfg, s, es), more)
  {
    hide Step;
    if more == [] {
      assert es + more == es;
    } else {
      var before, e := more[..|more| - 1], more[|more| - 1];
      StepsJoin(cfg, s, es, before);
      assert es + more == es + before + [e] && before + [e] == more;
      OneMore(cfg, s, es + before, e);
    }
  }

  lemma {:induction false} AfterSteps(cfg: Config, es: seq<Event>)
    ensures After(cfg, es) == Steps(cfg, Init(), es)
  {
    hide Step;
    if es != [] { AfterSteps(cfg, es[..|es| - 1]); }
  }

  lemma {:induction false} AfterJoin(cfg: Config, es: seq<Event>, more: seq<Event>)
    ensures After(cfg, es + more) == Steps(cfg, After(cfg, es), more)
  {
    AfterSteps(cfg, es);
    AfterSteps(cfg, es + more);
    StepsJoin(cfg, Init(), es, more);
  }

  lemma {:induction false} Two(cfg: Config, s: State, a: Event, b: Event)
    ensures Steps(cfg, s, [a, b]) == Step(cfg, Step(cfg, s, a), b)
  {
    hide Step;
    assert [a, b][..1] == [a] && [a][..0] == [];
    assert Steps(cfg, s, [a]) == Step(cfg, s, a);
  }

  lemma {:induction false} Three(cfg: Config, s: State, a: Event, b: Event, c: Event)
    ensures Steps(cfg, s, [a, b, c]) == Step(cfg, Step(cfg, Step(cfg, s, a), b), c)
  {
    hide Step;
    Two(cfg, s, a, b);
    assert [a, b, c][..2] == [a, b];
  }
}
