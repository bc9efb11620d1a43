/** The streaming poem runner: the events of a streamed model run are walked
    in arrival order and the text delta of each raw response event is printed
    as it arrives, between a fixed header and a completion line. */
module Streaming {
  import opened Wrappers
  import opened Strings

  /** A stream event: its `type` and, when its data has one, the `delta` text. */
  datatype Event = Event(kind: string, delta: Option<string>)

  /** Only raw response events with a present, non-empty delta are printed. */
  predicate Qualifies(e: Event)
  {
    e.kind == "raw_response_event" && e.delta.Some? && e.delta.value != ""
  }

  /** The deltas of the qualifying events, in arrival order. */
  function Deltas(events: seq<Event>): seq<string>
  {
    if events == [] then []
    else
      var last := events[|events| - 1];
      Deltas(events[..|events| - 1]) + (if Qualifies(last) then [last.delta.value] else [])
  }

  const UserLine: string := "\U{1F467} User: Can you write me a poem about the moon?\n"
  const Header: string := "\U{1F4DD} Poem (Streaming):\n"
  const DoneLine: string := "\n\n\U{2705} Done!"

  /** `print(x)` writes `x` and a line break; `print(x, end="")` writes `x` alone. */
  function PrintLine(text: string): string
  {
    text + "\n"
  }

  /** `run_poem_stream`, from the point where the stream exists: the pieces
      written to standard output, in order. `events` are the events the stream
      delivers; `raises` says whether it then ends by raising (too many turns,
      a failed connection) instead of finishing, in which case the error leaves
      the function before the completion line is printed. */
  method RunPoemStream(events: seq<Event>, raises: bool) returns (writes: seq<string>)
    ensures writes == [PrintLine(UserLine), PrintLine(Header)] + Deltas(events) +
      (if raises then [] else [PrintLine(DoneLine)])
  {
    writes := [PrintLine(UserLine), PrintLine(Header)];
    var i := 0;
    while i < |events|
      invariant 0 <= i <= |events|
      invariant writes == [PrintLine(UserLine), PrintLine(Header)] + Deltas(events[..i])
    {
      var event := events[i];
      if event.kind == "raw_response_event" {
        if event.delta.Some? && event.delta.value != "" {
          writes := writes + [event.delta.value];
        }
      }
      assert events[..i + 1][..i] == events[..i];
      i := i + 1;
    }
    assert events[..i] == events;
    if !raises {
      writes := writes + [PrintLine(DoneLine)];
    }
  }

  // ---------------------------------------------------------------------------
  // Properties of the filter
  // ---------------------------------------------------------------------------

  /** Reading the stream in two parts gives the deltas of the first part, then
      those of the second: nothing is reordered or held back. */
  lemma {:induction false} DeltasAppend(a: seq<Event>, b: seq<Event>)
    ensures Deltas(a + b) == Deltas(a) + Deltas(b)
  {
    if b != [] {
      var n := |b| - 1;
      DeltasAppend(a, b[..n]);
      assert (a + b)[..|a + b| - 1] == a + b[..n];
    } else {
      assert a + b == a;
    }
  }

  /** A single event contributes its delta exactly when it qualifies. */
  lemma DeltasSingle(e: Event)
    ensures Deltas([e]) == if Qualifies(e) then [e.delta.value] else []
  {
    assert [e][..0] == [];
  }

  /** An event that is not a raw response event, or has no or an empty delta,
      can be inserted anywhere without changing the output. */
  lemma SkippedEventChangesNothing(a: seq<Event>, e: Event, b: seq<Event>)
    requires !Qualifies(e)
    ensures Deltas(a + [e] + b) == Deltas(a + b)
  {
    DeltasAppend(a + [e], b);
    DeltasAppend(a, [e]);
    DeltasSingle(e);
    DeltasAppend(a, b);
  }

  /** Each printed delta is the non-empty delta of a raw response event of the stream. */
  lemma {:induction false} DeltasAreQualifyingDeltas(events: seq<Event>, k: int)
    requires 0 <= k < |Deltas(events)|
    ensures Deltas(events)[k] != ""
    ensures exists j | 0 <= j < |events| :: Qualifies(events[j]) && events[j].delta.value == Deltas(events)[k]
  {
    var n := |events| - 1;
    var d := Deltas(events);
    assert d == Deltas(events[..n]) + (if Qualifies(events[n]) then [events[n].delta.value] else []);
    if k < |Deltas(events[..n])| {
      DeltasAreQualifyingDeltas(events[..n], k);
      var j :| 0 <= j < n && Qualifies(events[..n][j]) && events[..n][j].delta.value == d[k];
      assert events[j] == events[..n][j];
    } else {
      assert Qualifies(events[n]) && events[n].delta.value == d[k];
    }
  }

  /** The number of printed deltas is the number of qualifying events. */
  lemma {:induction false} DeltasCount(events: seq<Event>)
    ensures |Deltas(events)| == |set j | 0 <= j < |events| && Qualifies(events[j])|
  {
    if events != [] {
      var n := |events| - 1;
      DeltasCount(events[..n]);
      var before := set j | 0 <= j < n && Qualifies(events[..n][j]);
      var now := set j | 0 <= j < |events| && Qualifies(events[j]);
      if Qualifies(events[n]) {
        assert now == before + {n};
      } else {
        assert now == before;
      }
    }
  }

  /** A stream without qualifying events prints nothing between the header and
      the completion line. */
  lemma {:induction false} NothingQualifiesNothingPrinted(events: seq<Event>)
    requires forall j | 0 <= j < |events| :: !Qualifies(events[j])
    ensures Deltas(events) == []
  {
    if events != [] {
      var n := |events| - 1;
      assert forall j | 0 <= j < n :: events[..n][j] == events[j];
      NothingQualifiesNothingPrinted(events[..n]);
    }
  }

  /** Everything written, read as one text: the two opening lines, the deltas
      back to back with no separator, then the completion line. */
  lemma StreamText(events: seq<Event>)
    ensures Concat([PrintLine(UserLine), PrintLine(Header)] + Deltas(events) + [PrintLine(DoneLine)]) ==
      PrintLine(UserLine) + PrintLine(Header) + Concat(Deltas(events)) + PrintLine(DoneLine)
  {
    var d := Deltas(events);
    ConcatAppend([PrintLine(UserLine), PrintLine(Header)], d);
    ConcatAppend([PrintLine(UserLine), PrintLine(Header)] + d, [PrintLine(DoneLine)]);
    assert Concat([PrintLine(UserLine), PrintLine(Header)]) == PrintLine(UserLine) + PrintLine(Header);
    assert Concat([PrintLine(DoneLine)]) == PrintLine(DoneLine);
  }
}
