/** Streaming an assistant message as deltas cut from the redacted text, with a tail held back. */
module DeltaStreamer {
  import opened Json

  /** _REDACTION_TAIL_HOLDBACK. */
  const HOLD_BACK: nat := 64

  /** How far a snapshot of the redacted text lets the streamer go. */
  function SafeLength(emitted: nat, redacted: string): nat {
    if |redacted| > emitted + HOLD_BACK then |redacted| - HOLD_BACK else emitted
  }

  /** The characters a snapshot adds to what was sent. */
  function Cut(emitted: nat, redacted: string): (c: string)
    ensures SafeLength(emitted, redacted) == emitted + |c|
  {
    if |redacted| > emitted + HOLD_BACK then redacted[emitted..|redacted| - HOLD_BACK] else ""
  }

  /** What the end of the stream adds. */
  function Rest(emitted: nat, final: string): string {
    if |final| > emitted then final[emitted..] else ""
  }

  class Streamer {
    var emitted: nat

    constructor ()
      ensures emitted == 0
    {
      emitted := 0;
    }

    /** One more snapshot of the accumulated text, already redacted as a whole; the delta to emit, if any. */
    method OnText(redacted: string) returns (delta: Option<string>)
      modifies this
      ensures emitted == SafeLength(old(emitted), redacted)
      ensures delta == if emitted > old(emitted) then Some(Cut(old(emitted), redacted)) else None
    {
      var safeLength := if |redacted| - HOLD_BACK > emitted then |redacted| - HOLD_BACK else emitted;
      if safeLength <= emitted {
        return None;
      }
      var chunk := redacted[emitted..safeLength];
      emitted := safeLength;
      return Some(chunk);
    }

    /** The stream has drained: flush what is held back; a message that redacts to nothing still gets one delta. */
    method Finish(final: string) returns (delta: Option<string>)
      modifies this
      ensures emitted == if |final| > old(emitted) then |final| else old(emitted)
      ensures delta == if |final| > old(emitted) || old(emitted) == 0 then Some(Rest(old(emitted), final)) else None
    {
      if |final| > emitted {
        var chunk := final[emitted..];
        emitted := |final|;
        return Some(chunk);
      } else if emitted == 0 {
        return Some("");
      }
      return None;
    }
  }

  // ----- what a stream has sent, as a function of its snapshots -----

  /** The characters sent after the snapshots, and how many they are. */
  function Sent(snapshots: seq<string>): (s: string)
    ensures |s| == Reach(snapshots)
  {
    if snapshots == [] then ""
    else
      var init := snapshots[..|snapshots| - 1];
      Sent(init) + Cut(Reach(init), snapshots[|snapshots| - 1])
  }

  function Reach(snapshots: seq<string>): nat {
    if snapshots == [] then 0
    else SafeLength(Reach(snapshots[..|snapshots| - 1]), snapshots[|snapshots| - 1])
  }

  function Streamed(snapshots: seq<string>, final: string): string {
    Sent(snapshots) + Rest(Reach(snapshots), final)
  }

  predicate IsPrefix(a: string, b: string) { |a| <= |b| && a == b[..|a|] }

  /** All but the last HOLD_BACK characters of a snapshot. */
  function Settled(redacted: string): string {
    if |redacted| > HOLD_BACK then redacted[..|redacted| - HOLD_BACK] else ""
  }

  /** The stability that the hold-back is meant to give: a snapshot without its tail is a prefix of the final text. */
  predicate Stable(snapshots: seq<string>, final: string) {
    forall i :: 0 <= i < |snapshots| ==> IsPrefix(Settled(snapshots[i]), final)
  }

  /** What the i-th snapshot adds stands at the same place in the final text. */
  predicate CutAgrees(snapshots: seq<string>, final: string, i: nat)
    requires i < |snapshots|
  {
    var from := Reach(snapshots[..i]);
    var cut := Cut(from, snapshots[i]);
    cut == "" || (from + |cut| <= |final| && cut == final[from..from + |cut|])
  }

  predicate CutsAgree(snapshots: seq<string>, final: string) {
    forall i :: 0 <= i < |snapshots| ==> CutAgrees(snapshots, final, i)
  }

  lemma CutsAgreeInit(snapshots: seq<string>, final: string)
    requires snapshots != []
    ensures var init := snapshots[..|snapshots| - 1];
            CutsAgree(snapshots, final) <==> CutsAgree(init, final) && CutAgrees(snapshots, final, |init|)
  {
    var init := snapshots[..|snapshots| - 1];
    forall i | 0 <= i < |init| ensures CutAgrees(init, final, i) == CutAgrees(snapshots, final, i) {
      assert init[..i] == snapshots[..i];
    }
  }

  lemma PrefixConcat(a: string, b: string, s: string)
    ensures IsPrefix(a + b, s) <==>
            IsPrefix(a, s) && (b == "" || (|a| + |b| <= |s| && b == s[|a|..|a| + |b|]))
  {
    if IsPrefix(a + b, s) {
      assert a == (a + b)[..|a|] == s[..|a|];
      assert b == (a + b)[|a|..] == s[|a|..|a| + |b|];
    } else if b == "" {
      assert a + b == a;
    }
  }

  lemma {:induction false} SentIsPrefix(snapshots: seq<string>, final: string)
    ensures CutsAgree(snapshots, final) <==> IsPrefix(Sent(snapshots), final)
  {
    if snapshots != [] {
      var init := snapshots[..|snapshots| - 1];
      SentIsPrefix(init, final);
      CutsAgreeInit(snapshots, final);
      PrefixConcat(Sent(init), Cut(Reach(init), snapshots[|snapshots| - 1]), final);
    }
  }

  /** The deltas add up to the final redacted text exactly when every cut that was sent is a cut of the final text. */
  lemma StreamedIffCutsAgree(snapshots: seq<string>, final: string)
    ensures Streamed(snapshots, final) == final <==> CutsAgree(snapshots, final)
  {
    SentIsPrefix(snapshots, final);
    PrefixConcat(Sent(snapshots), Rest(Reach(snapshots), final), final);
    if IsPrefix(Sent(snapshots), final) {
      assert final == final[..Reach(snapshots)] + final[Reach(snapshots)..];
    }
    assert final[..|final|] == final;
  }

  /** If the redacted text is stable up to its last HOLD_BACK characters, the deltas are the final text exactly once. */
  lemma StableStreams(snapshots: seq<string>, final: string)
    requires Stable(snapshots, final)
    ensures Streamed(snapshots, final) == final
  {
    forall i | 0 <= i < |snapshots| ensures CutAgrees(snapshots, final, i) {
      var from := Reach(snapshots[..i]);
      if |snapshots[i]| > from + HOLD_BACK {
        var s := Settled(snapshots[i]);
        assert IsPrefix(s, final);
        assert Cut(from, snapshots[i]) == s[from..] == final[from..|s|];
      }
    }
    StreamedIffCutsAgree(snapshots, final);
  }
}
