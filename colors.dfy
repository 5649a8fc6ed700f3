/** The background-colour allocator: a fixed palette of six colours, drawn at
    random with no colour returned twice in a row. */
module Colors {
  import opened Wrappers

  const Palette: seq<string> := ["#5EBD3E", "#FFB900", "#F78200", "#E23838", "#973999", "#009CDF"]

  /** The rejection test of the drawing loop: a drawn colour is kept unless it
      repeats the colour returned last time. */
  predicate Accepts(last: Option<string>, color: string) {
    last.None? || color != last.value
  }

  /** Palette positions, standing for the values `random.choice` returns. */
  predicate Draws(draws: seq<nat>) {
    forall i | 0 <= i < |draws| :: draws[i] < |Palette|
  }

  /** A sequence of draws in which two palette positions differ: whatever the
      previous colour, the drawing loop stops within it. */
  predicate Decisive(draws: seq<nat>) {
    Draws(draws) && exists i, j | 0 <= i < j < |draws| :: draws[i] != draws[j]
  }

  /** `colors` is a run of successive results starting after `last`: each is
      a palette colour and differs from the one before it. */
  predicate NoImmediateRepeat(last: Option<string>, colors: seq<string>)
    decreases |colors|
  {
    colors == []
    || (colors[0] in Palette && Accepts(last, colors[0]) && NoImmediateRepeat(Some(colors[0]), colors[1..]))
  }

  /** The same, position by position: every colour is in the palette, the
      first is accepted after `last` and no two neighbours are equal. */
  lemma {:induction false} NoImmediateRepeatAt(last: Option<string>, colors: seq<string>)
    requires NoImmediateRepeat(last, colors)
    ensures forall i | 0 <= i < |colors| :: colors[i] in Palette
    ensures colors != [] ==> Accepts(last, colors[0])
    ensures forall i | 0 < i < |colors| :: colors[i] != colors[i - 1]
    decreases |colors|
  {
    if colors != [] {
      var tail := colors[1..];
      NoImmediateRepeatAt(Some(colors[0]), tail);
      forall i | 0 < i < |colors|
        ensures colors[i] in Palette && colors[i] != colors[i - 1]
      {
        assert colors[i] == tail[i - 1];
        if i > 1 {
          assert colors[i - 1] == tail[i - 2];
        }
      }
    }
  }

  /** One more result that the drawing loop accepted extends the run. */
  lemma {:induction false} NoImmediateRepeatSnoc(last: Option<string>, colors: seq<string>, color: string)
    requires NoImmediateRepeat(last, colors) && color in Palette
    requires Accepts(if colors == [] then last else Some(colors[|colors| - 1]), color)
    ensures NoImmediateRepeat(last, colors + [color])
    decreases |colors|
  {
    if colors != [] {
      var tail := colors[1..];
      assert (colors + [color])[1..] == tail + [color];
      if tail != [] {
        assert tail[|tail| - 1] == colors[|colors| - 1];
      }
      NoImmediateRepeatSnoc(Some(colors[0]), tail, color);
    }
  }

  lemma {:induction false} DecisiveAccepts(last: Option<string>, draws: seq<nat>)
    requires Decisive(draws)
    ensures exists i | 0 <= i < |draws| :: Accepts(last, Palette[draws[i]])
  {
    var i, j :| 0 <= i < j < |draws| && draws[i] != draws[j];
    assert Palette[draws[i]] != Palette[draws[j]];
    if !Accepts(last, Palette[draws[i]]) {
      assert Accepts(last, Palette[draws[j]]);
    }
  }

  /** The state `random_color` keeps between calls in its `last_color`
      attribute. */
  class ColorPicker {
    var last: Option<string>

    /** Before the first call there is no previous colour. */
    constructor ()
      ensures last == None
    {
      last := None;
    }

    /** `random_color()`: draws until a colour other than the last one comes
        up, remembers it and returns it. `draws` are the successive draws; the
        loop consumes `used` of them. */
    method Next(draws: seq<nat>) returns (color: string, used: nat)
      requires Draws(draws)
      requires exists i | 0 <= i < |draws| :: Accepts(last, Palette[draws[i]])
      modifies this
      ensures 0 < used <= |draws| && color == Palette[draws[used - 1]]
      ensures color in Palette && Accepts(old(last), color)
      ensures forall i | 0 <= i < used - 1 :: !Accepts(old(last), Palette[draws[i]])
      ensures last == Some(color)
    {
      var i := 0;
      while !Accepts(last, Palette[draws[i]])
        invariant 0 <= i < |draws|
        invariant exists k | i <= k < |draws| :: Accepts(last, Palette[draws[k]])
        invariant forall k | 0 <= k < i :: !Accepts(last, Palette[draws[k]])
        decreases |draws| - i
      {
        i := i + 1;
      }
      color := Palette[draws[i]];
      used := i + 1;
      last := Some(color);
    }
  }
}
