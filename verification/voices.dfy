/** One voice clip: its payload bytes, whether it is a placeholder, and the
    duration that travels with it. */
module Voices {
  import opened Results
  import opened Bytes

  /** Offset, inside a clip, of the i32 that marks a placeholder clip. */
  const DUMMY_MARK: int := 0xC

  /** `Voice`: `data` is never changed after the clip is sliced out;
      `isDummy` is computed once when the clip is made; `length` is the
      duration read from the container's duration field (0 until then). */
  datatype Voice = Voice(data: seq<byte>, isDummy: bool, length: u32)

  /** `new Voice(vc)`: the i32 at 0xC must be readable, and the clip is a
      placeholder exactly when it is -1, i.e. when those four bytes are all
      0xFF. */
  function MakeVoice(data: seq<byte>): (r: Result<Voice>)
    ensures r.Ok? <==> |data| >= DUMMY_MARK + 4
    ensures r.Err? ==> r.error == OutOfRange
    ensures r.Ok? ==> r.value.data == data && r.value.length == 0
    ensures r.Ok? ==> (r.value.isDummy <==> data[DUMMY_MARK..DUMMY_MARK + 4] == [0xFF, 0xFF, 0xFF, 0xFF])
  {
    var mark :- ReadI32(data, DUMMY_MARK);
    Ok(Voice(data, mark == -1, 0))
  }

  /** `Voices.Sum(a => a.Data.Length)`, without the int32 limit. */
  function TotalLength(voices: seq<Voice>): nat {
    if voices == [] then 0
    else TotalLength(voices[..|voices| - 1]) + |voices[|voices| - 1].data|
  }

  lemma TotalLengthPrefix(voices: seq<Voice>, i: nat)
    requires i < |voices|
    ensures TotalLength(voices[..i + 1]) == TotalLength(voices[..i]) + |voices[i].data|
    ensures TotalLength(voices[..i + 1]) <= TotalLength(voices)
  {
    assert voices[..i + 1][..i] == voices[..i];
    TotalLengthMonotone(voices, i + 1);
  }

  lemma {:induction false} TotalLengthMonotone(voices: seq<Voice>, i: nat)
    requires i <= |voices|
    ensures TotalLength(voices[..i]) <= TotalLength(voices)
    decreases |voices| - i
  {
    if i < |voices| {
      TotalLengthMonotone(voices, i + 1);
      assert voices[..i + 1][..i] == voices[..i];
    } else {
      assert voices[..i] == voices;
    }
  }

  /** The total only depends on the clips' sizes. */
  lemma {:induction false} TotalLengthSameSizes(a: seq<Voice>, b: seq<Voice>)
    requires |a| == |b| && forall i :: 0 <= i < |a| ==> |a[i].data| == |b[i].data|
    ensures TotalLength(a) == TotalLength(b)
  {
    if a != [] {
      var n := |a| - 1;
      TotalLengthSameSizes(a[..n], b[..n]);
    }
  }
}
