/** Earned autonomy (internal/aiplane/graduation.go). The accuracy thresholds 0.90 and 0.30
    are compared by cross-multiplication. */
module Graduation {

  datatype Mode = Shadow | Supervised | Autonomous

  const MIN_TO_AUTONOMOUS := 20

  datatype Track = Track(correct: map<string, nat>, total: map<string, nat>)

  function Count(m: map<string, nat>, kind: string): nat {
    if kind in m then m[kind] else 0
  }

  function Bump(m: map<string, nat>, kind: string): map<string, nat> {
    m[kind := Count(m, kind) + 1]
  }

  function ModeOf(t: Track, kind: string): Mode {
    var total, correct := Count(t.total, kind), Count(t.correct, kind);
    if total < MIN_TO_AUTONOMOUS then Supervised
    else if 10 * correct >= 9 * total then Autonomous
    else if 10 * correct < 3 * total then Shadow
    else Supervised
  }

  function Recorded(t: Track, kind: string, correct: bool): Track {
    if kind == "" then t
    else Track(if correct then Bump(t.correct, kind) else t.correct, Bump(t.total, kind))
  }

  function RecordedAll(t: Track, kinds: seq<string>, correct: bool): Track {
    if kinds == [] then t else Recorded(RecordedAll(t, kinds[..|kinds| - 1], correct), kinds[|kinds| - 1], correct)
  }

  class Tracker {
    var correct: map<string, nat>
    var total: map<string, nat>

    constructor ()
      ensures State() == Track(map[], map[])
    {
      correct, total := map[], map[];
    }

    ghost function State(): Track
      reads this
    {
      Track(correct, total)
    }

    method Record(category: string, wasCorrect: bool)
      modifies this
      ensures State() == Recorded(old(State()), category, wasCorrect)
    {
      if category == "" {
        return;
      }
      total := Bump(total, category);
      if wasCorrect {
        correct := Bump(correct, category);
      }
    }

    method ModeFor(category: string) returns (m: Mode)
      ensures m == ModeOf(State(), category)
    {
      var n, c := Count(total, category), Count(correct, category);
      if n < MIN_TO_AUTONOMOUS {
        return Supervised;
      }
      if 10 * c >= 9 * n {
        return Autonomous;
      }
      if 10 * c < 3 * n {
        return Shadow;
      }
      return Supervised;
    }
  }

  /** A rejection never promotes, once the track record is long enough to decide on. */
  lemma RejectionNeverPromotes(t: Track, kind: string)
    requires Count(t.total, kind) >= MIN_TO_AUTONOMOUS
    ensures ModeOf(Recorded(t, kind, false), kind).Autonomous? ==> ModeOf(t, kind).Autonomous?
    ensures ModeOf(t, kind).Shadow? ==> ModeOf(Recorded(t, kind, false), kind).Shadow?
  {
  }

  /** Below that length it can: exactly the rejection that completes the twentieth outcome
      of an otherwise nearly perfect record promotes. */
  lemma RejectionPromotesExactly(t: Track, kind: string)
    requires Count(t.correct, kind) <= Count(t.total, kind)
    ensures kind != "" && !ModeOf(t, kind).Autonomous? && ModeOf(Recorded(t, kind, false), kind).Autonomous? <==>
            kind != "" && Count(t.total, kind) == 19 && Count(t.correct, kind) >= 18
  {
  }
}
