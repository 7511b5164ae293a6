/** Redistribution of the clips between containers, one pass of the main
    program: the real (non-placeholder) clips of all files are pooled in
    file order then slot order, the pool is shuffled, and the same order is
    walked again, every real slot taking the next clip of the shuffled pool
    through the counter `vi`; each file is saved once its slots are done. */
module Redistribution {
  import opened Results
  import opened Bytes
  import opened Voices
  import opened Container
  import opened Saving
  import opened ScdFiles
  import opened Shuffling

  // ---- pooling ----

  /** `Voices.Where(b => !b.IsDummy)`: a file's real clips, in slot order. */
  function Real(vs: seq<Voice>): (r: seq<Voice>)
    ensures |r| <= |vs|
  {
    if vs == [] then []
    else if vs[0].isDummy then Real(vs[1..])
    else [vs[0]] + Real(vs[1..])
  }

  /** `files.SelectMany(a => a.Voices.Where(b => !b.IsDummy))`: the real
      clips of all files, file after file. */
  function Pool(fs: seq<seq<Voice>>): seq<Voice> {
    if fs == [] then [] else Real(fs[0]) + Pool(fs[1..])
  }

  predicate AllReal(s: seq<Voice>) {
    forall k :: 0 <= k < |s| ==> !s[k].isDummy
  }

  /** A clip is pooled from a file exactly when it is one of the file's
      clips and not a placeholder. */
  lemma {:induction false} InReal(vs: seq<Voice>, v: Voice)
    ensures v in Real(vs) <==> v in vs && !v.isDummy
  {
    if vs != [] {
      InReal(vs[1..], v);
      assert vs == [vs[0]] + vs[1..];
    }
  }

  lemma {:induction false} RealAllReal(vs: seq<Voice>)
    ensures AllReal(Real(vs))
  {
    if vs != [] {
      RealAllReal(vs[1..]);
    }
  }

  /** The pool holds real clips only. */
  lemma {:induction false} PoolAllReal(fs: seq<seq<Voice>>)
    ensures AllReal(Pool(fs))
  {
    if fs != [] {
      RealAllReal(fs[0]);
      PoolAllReal(fs[1..]);
    }
  }

  /** The real clips of the slots before `i` and of those from `i` on. */
  lemma {:induction false} RealSplit(vs: seq<Voice>, i: nat)
    requires i <= |vs|
    ensures Real(vs) == Real(vs[..i]) + Real(vs[i..])
  {
    if i == 0 {
      assert vs[i..] == vs;
    } else {
      RealSplit(vs[1..], i - 1);
      assert vs[..i][0] == vs[0] && vs[..i][1..] == vs[1..][..i - 1];
      assert vs[1..][i - 1..] == vs[i..];
      if !vs[0].isDummy {
        var a, b := Real(vs[1..][..i - 1]), Real(vs[i..]);
        assert [vs[0]] + (a + b) == ([vs[0]] + a) + b;
      }
    }
  }

  /** The real clips of the files before `k` and of those from `k` on. */
  lemma {:induction false} PoolSplit(fs: seq<seq<Voice>>, k: nat)
    requires k <= |fs|
    ensures Pool(fs) == Pool(fs[..k]) + Pool(fs[k..])
  {
    if k == 0 {
      assert fs[k..] == fs;
    } else {
      PoolSplit(fs[1..], k - 1);
      assert fs[..k][1..] == fs[1..][..k - 1];
      assert fs[1..][k - 1..] == fs[k..];
    }
  }

  // ---- reassignment ----

  /** The slots of one file after the inner loop: a placeholder keeps its
      clip, and each real slot takes the next clip of `s`. */
  function Fill(vs: seq<Voice>, s: seq<Voice>): (r: seq<Voice>)
    requires |Real(vs)| <= |s|
    ensures |r| == |vs|
  {
    if vs == [] then []
    else if vs[0].isDummy then [vs[0]] + Fill(vs[1..], s)
    else [s[0]] + Fill(vs[1..], s[1..])
  }

  /** The slots of all files after the outer loop: each file takes the
      clips of `s` that follow those the earlier files took. */
  function FillAll(fs: seq<seq<Voice>>, s: seq<Voice>): (r: seq<seq<Voice>>)
    requires |Pool(fs)| <= |s|
    ensures |r| == |fs| && forall k :: 0 <= k < |fs| ==> |r[k]| == |fs[k]|
  {
    if fs == [] then []
    else [Fill(fs[0], s)] + FillAll(fs[1..], s[|Real(fs[0])|..])
  }

  /** Slot `i` after the inner loop: a placeholder keeps its clip; a real
      slot holds clip number `vi` of `s`, `vi` being the number of real
      slots before it. */
  lemma {:induction false} FillAt(vs: seq<Voice>, s: seq<Voice>, i: nat)
    requires |Real(vs)| <= |s| && i < |vs|
    ensures vs[i].isDummy ==> Fill(vs, s)[i] == vs[i]
    ensures !vs[i].isDummy ==> |Real(vs[..i])| < |s| && Fill(vs, s)[i] == s[|Real(vs[..i])|]
  {
    if i == 0 {
      assert vs[..0] == [];
    } else {
      var t := if vs[0].isDummy then s else s[1..];
      FillAt(vs[1..], t, i - 1);
      assert vs[..i][0] == vs[0] && vs[..i][1..] == vs[1..][..i - 1];
      assert Fill(vs, s)[i] == Fill(vs[1..], t)[i - 1];
    }
  }

  /** The real slots of a refilled file, in order, hold exactly the clips
      it took from `s`. */
  lemma {:induction false} RealFill(vs: seq<Voice>, s: seq<Voice>)
    requires |Real(vs)| <= |s| && AllReal(s)
    ensures Real(Fill(vs, s)) == s[..|Real(vs)|]
  {
    if vs != [] {
      var f := Fill(vs, s);
      assert f[1..] == Fill(vs[1..], if vs[0].isDummy then s else s[1..]);
      if vs[0].isDummy {
        RealFill(vs[1..], s);
      } else {
        RealFill(vs[1..], s[1..]);
        assert s[..|Real(vs)|] == [s[0]] + s[1..][..|Real(vs[1..])|];
      }
    }
  }

  /** Handing a file its own real clips in order leaves it as it was. */
  lemma {:induction false} FillOwn(vs: seq<Voice>, s: seq<Voice>)
    requires |Real(vs)| <= |s| && s[..|Real(vs)|] == Real(vs)
    ensures Fill(vs, s) == vs
  {
    if vs != [] {
      var m := |Real(vs[1..])|;
      if vs[0].isDummy {
        FillOwn(vs[1..], s);
      } else {
        assert s[0] == Real(vs)[0] == vs[0];
        assert s[1..][..m] == Real(vs)[1..] == Real(vs[1..]);
        FillOwn(vs[1..], s[1..]);
      }
      assert vs == [vs[0]] + vs[1..];
    }
  }

  /** File `k` after the outer loop is file `k` refilled from the clips
      after the ones the earlier files took. */
  lemma {:induction false} FillAllAt(fs: seq<seq<Voice>>, s: seq<Voice>, k: nat)
    requires |Pool(fs)| <= |s| && k < |fs|
    ensures |Pool(fs[..k])| + |Real(fs[k])| <= |Pool(fs)|
    ensures FillAll(fs, s)[k] == Fill(fs[k], s[|Pool(fs[..k])|..])
  {
    PoolSplit(fs, k);
    assert fs[k..] == [fs[k]] + fs[k + 1..];
    if k > 0 {
      var m := |Real(fs[0])|;
      FillAllAt(fs[1..], s[m..], k - 1);
      assert fs[..k][1..] == fs[1..][..k - 1];
      assert s[m..][|Pool(fs[1..][..k - 1])|..] == s[|Pool(fs[..k])|..];
    }
  }

  /** The counter `vi` at slot `i` of file `k`: a placeholder slot keeps
      its clip, and a real slot gets the shuffled clip whose index is the
      number of real slots in the earlier files and before `i` in file
      `k`. */
  lemma Redistributed(fs: seq<seq<Voice>>, s: seq<Voice>, k: nat, i: nat)
    requires |Pool(fs)| <= |s| && k < |fs| && i < |fs[k]|
    ensures fs[k][i].isDummy ==> FillAll(fs, s)[k][i] == fs[k][i]
    ensures !fs[k][i].isDummy ==>
      var vi := |Pool(fs[..k])| + |Real(fs[k][..i])|;
      vi < |Pool(fs)| && FillAll(fs, s)[k][i] == s[vi]
  {
    FillAllAt(fs, s, k);
    var start := |Pool(fs[..k])|;
    FillAt(fs[k], s[start..], i);
    if !fs[k][i].isDummy {
      RealSplit(fs[k], i);
      assert fs[k][i..] == [fs[k][i]] + fs[k][i + 1..];
    }
  }

  /** The real slots of all files, in file then slot order, hold the first
      clips of `s`, one each. */
  lemma {:induction false} PoolFillAll(fs: seq<seq<Voice>>, s: seq<Voice>)
    requires |Pool(fs)| <= |s| && AllReal(s)
    ensures Pool(FillAll(fs, s)) == s[..|Pool(fs)|]
  {
    if fs != [] {
      var m := |Real(fs[0])|;
      var f := FillAll(fs, s);
      assert f[0] == Fill(fs[0], s) && f[1..] == FillAll(fs[1..], s[m..]);
      RealFill(fs[0], s);
      PoolFillAll(fs[1..], s[m..]);
      assert s[..|Pool(fs)|] == s[..m] + s[m..][..|Pool(fs[1..])|];
    }
  }

  /** Handing every file its own real clips in order changes nothing. */
  lemma {:induction false} FillAllOwn(fs: seq<seq<Voice>>, s: seq<Voice>)
    requires |Pool(fs)| <= |s| && s[..|Pool(fs)|] == Pool(fs)
    ensures FillAll(fs, s) == fs
  {
    if fs != [] {
      var m := |Real(fs[0])|;
      assert s[..m] == s[..|Pool(fs)|][..m] == Real(fs[0]);
      FillOwn(fs[0], s);
      assert s[m..][..|Pool(fs[1..])|] == s[..|Pool(fs)|][m..] == Pool(fs[1..]);
      FillAllOwn(fs[1..], s[m..]);
      assert fs == [fs[0]] + fs[1..];
    }
  }

  /** Redistributing any reordering of the pool: every file keeps its slot
      count, and the real slots, read in file then slot order, hold that
      reordering exactly, so each pooled clip is used once and no other
      clip appears. */
  lemma Conserved(fs: seq<seq<Voice>>, s: seq<Voice>)
    requires multiset(s) == multiset(Pool(fs))
    ensures |s| == |Pool(fs)|
    ensures |FillAll(fs, s)| == |fs| && forall k :: 0 <= k < |fs| ==> |FillAll(fs, s)[k]| == |fs[k]|
    ensures Pool(FillAll(fs, s)) == s
    ensures multiset(Pool(FillAll(fs, s))) == multiset(Pool(fs))
  {
    assert |s| == |multiset(s)| == |multiset(Pool(fs))| == |Pool(fs)|;
    PoolAllReal(fs);
    forall k | 0 <= k < |s|
      ensures !s[k].isDummy
    {
      assert s[k] in multiset(Pool(fs));
      var j :| 0 <= j < |Pool(fs)| && Pool(fs)[j] == s[k];
    }
    PoolFillAll(fs, s);
    assert s[..|s|] == s;
  }

  /** One pass with any keys: the real slots end up holding the shuffled
      pool in file then slot order, a reordering of the pooled clips, and
      the placeholders stay where they were. */
  lemma PassConserves(fs: seq<seq<Voice>>, keys: seq<int>)
    requires |keys| == |Pool(fs)|
    ensures var t := FillAll(fs, Shuffle(keys, Pool(fs)));
      && Pool(t) == Shuffle(keys, Pool(fs))
      && multiset(Pool(t)) == multiset(Pool(fs))
      && |t| == |fs| && forall k, i :: 0 <= k < |fs| && 0 <= i < |fs[k]| && fs[k][i].isDummy ==> t[k][i] == fs[k][i]
  {
    var s := Shuffle(keys, Pool(fs));
    Conserved(fs, s);
    forall k, i | 0 <= k < |fs| && 0 <= i < |fs[k]| && fs[k][i].isDummy
      ensures FillAll(fs, s)[k][i] == fs[k][i]
    {
      Redistributed(fs, s, k, i);
    }
  }

  // ---- the pass over the container objects ----

  /** No file object appears twice in the list. */
  predicate DistinctFiles(files: seq<ScdFile>) {
    files == [] || (files[0] !in files[1..] && DistinctFiles(files[1..]))
  }

  lemma {:induction false} DistinctAt(files: seq<ScdFile>, i: nat, j: nat)
    requires DistinctFiles(files) && i < |files| && j < |files| && i != j
    ensures files[i] != files[j]
  {
    if i == 0 {
      assert files[j] == files[1..][j - 1];
    } else if j == 0 {
      assert files[i] == files[1..][i - 1];
    } else {
      DistinctAt(files[1..], i - 1, j - 1);
    }
  }

  /** The clip lists of the files, in file order. */
  function VoiceLists(files: seq<ScdFile>): (r: seq<seq<Voice>>)
    reads files
    ensures |r| == |files| && forall k :: 0 <= k < |files| ==> r[k] == files[k].voices
  {
    if files == [] then [] else [files[0].voices] + VoiceLists(files[1..])
  }

  /** One pass of the inner loop, on what is left of the file: slot `i`
      gets its clip `x`, and the rest of the loop fills the slots after
      it, `filled` being the slots before it. */
  lemma FillNext(before: seq<Voice>, shuffled: seq<Voice>, filled: seq<Voice>, i: nat, vi: nat)
    requires i < |before| && vi + |Real(before[i..])| <= |shuffled|
    ensures var x := if before[i].isDummy then before[i] else shuffled[vi];
      var next := if before[i].isDummy then vi else vi + 1;
      && next + |Real(before[i + 1..])| == vi + |Real(before[i..])|
      && filled + Fill(before[i..], shuffled[vi..]) == (filled + [x]) + Fill(before[i + 1..], shuffled[next..])
  {
    assert before[i..] == [before[i]] + before[i + 1..];
    if !before[i].isDummy {
      assert shuffled[vi..][1..] == shuffled[vi + 1..];
    }
  }

  /** Slot `i` of a list made of `done` and the slots of `before` from `i`
      on gets `x`. */
  lemma ReplaceAt(cur: seq<Voice>, done: seq<Voice>, before: seq<Voice>, i: nat, x: Voice)
    requires |done| == i < |before| && cur == done + before[i..]
    ensures cur[i] == before[i]
    ensures cur[i := x] == (done + [x]) + before[i + 1..]
  {
  }

  /** The pool of the first `k + 1` files is that of the first `k` and
      then the real clips of file `k`. */
  lemma PoolPrefixNext(fs: seq<seq<Voice>>, k: nat)
    requires k < |fs|
    ensures |Pool(fs[..k + 1])| == |Pool(fs[..k])| + |Real(fs[k])|
  {
    PoolSplit(fs[..k + 1], k);
    assert fs[..k + 1][..k] == fs[..k];
    assert fs[..k + 1][k..] == [fs[k]];
  }

  /** The inner loop of the main program on one file: each real slot, in
      order, gets the next shuffled clip, `vi` counting the clips handed
      out so far. */
  method Refill(file: ScdFile, shuffled: seq<Voice>, start: nat) returns (vi: nat)
    requires file.Valid() && start + |Real(file.voices)| <= |shuffled|
    modifies file
    ensures file.Valid()
    ensures file.voices == Fill(old(file.voices), shuffled[start..])
    ensures vi == start + |Real(old(file.voices))|
  {
    ghost var before := file.voices;
    ghost var goal := Fill(before, shuffled[start..]);
    ghost var filled: seq<Voice> := [];
    vi := start;
    assert before[0..] == before;
    for i := 0 to |file.voices|
      invariant |filled| == i && file.voices == filled + before[i..]
      invariant vi + |Real(before[i..])| == start + |Real(before)| <= |shuffled|
      invariant goal == filled + Fill(before[i..], shuffled[vi..])
    {
      FillNext(before, shuffled, filled, i, vi);
      if !file.voices[i].isDummy {
        ReplaceAt(file.voices, filled, before, i, shuffled[vi]);
        file.voices := file.voices[i := shuffled[vi]];
        filled := filled + [shuffled[vi]];
        vi := vi + 1;
      } else {
        ReplaceAt(file.voices, filled, before, i, before[i]);
        filled := filled + [before[i]];
      }
    }
    assert before[|before|..] == [];
  }

  /** The layouts of the files, in file order. */
  function Layouts(files: seq<ScdFile>): (r: seq<Layout>)
    ensures |r| == |files| && forall k :: 0 <= k < |files| ==> r[k] == files[k].layout
  {
    seq(|files|, k requires 0 <= k < |files| => files[k].layout)
  }

  /** Every file can be saved with its new clips. */
  predicate AllSaveReady(ls: seq<Layout>, ts: seq<seq<Voice>>) {
    |ls| == |ts| && forall k :: 0 <= k < |ls| ==> SaveReady(ls[k], ts[k])
  }

  /** Saving the files in order: the saved bytes of each, or the error of
      the first save that fails. */
  function SaveAll(ls: seq<Layout>, ts: seq<seq<Voice>>): Result<seq<seq<byte>>>
    requires AllSaveReady(ls, ts)
  {
    if ls == [] then Ok([])
    else
      var out :- Saved(ls[0], ts[0]);
      var rest :- SaveAll(ls[1..], ts[1..]);
      Ok([out] + rest)
  }

  /** `outs` in front of the saved bytes of a result, or its error. */
  function Prefixed(outs: seq<seq<byte>>, r: Result<seq<seq<byte>>>): Result<seq<seq<byte>>> {
    if r.Err? then r else Ok(outs + r.value)
  }

  /** `SaveAll` succeeds exactly when every save does, and then holds each
      file's saved bytes in file order. */
  lemma {:induction false} SaveAllOk(ls: seq<Layout>, ts: seq<seq<Voice>>)
    requires AllSaveReady(ls, ts)
    ensures SaveAll(ls, ts).Ok? <==> forall k :: 0 <= k < |ls| ==> Saved(ls[k], ts[k]).Ok?
    ensures SaveAll(ls, ts).Ok? ==>
      && |SaveAll(ls, ts).value| == |ls|
      && forall k :: 0 <= k < |ls| ==> Saved(ls[k], ts[k]) == Ok(SaveAll(ls, ts).value[k])
  {
    if ls != [] {
      SaveAllOk(ls[1..], ts[1..]);
      assert forall k :: 0 < k < |ls| ==> ls[1..][k - 1] == ls[k] && ts[1..][k - 1] == ts[k];
    }
  }

  /** When `SaveAll` fails, its error is that of the first failing save. */
  lemma {:induction false} SaveAllErr(ls: seq<Layout>, ts: seq<seq<Voice>>)
    requires AllSaveReady(ls, ts) && SaveAll(ls, ts).Err?
    ensures exists k ::
      && 0 <= k < |ls|
      && Saved(ls[k], ts[k]) == Err(SaveAll(ls, ts).error)
      && forall j :: 0 <= j < k ==> Saved(ls[j], ts[j]).Ok?
  {
    if Saved(ls[0], ts[0]).Ok? {
      SaveAllErr(ls[1..], ts[1..]);
      var k :| 0 <= k < |ls[1..]| && Saved(ls[1..][k], ts[1..][k]) == Err(SaveAll(ls[1..], ts[1..]).error)
        && forall j :: 0 <= j < k ==> Saved(ls[1..][j], ts[1..][j]).Ok?;
      assert forall j :: 0 < j <= k ==> ls[1..][j - 1] == ls[j] && ts[1..][j - 1] == ts[j];
      assert Saved(ls[k + 1], ts[k + 1]) == Err(SaveAll(ls, ts).error);
    }
  }


  /** One pass of the save loop: when the files before `fi` saved to
      `outs` and file `fi` saves to `saved`, a failure there is the outcome
      of the whole loop, and a success adds its bytes to `outs`. */
  lemma SaveAllNext(ls: seq<Layout>, ts: seq<seq<Voice>>, outs: seq<seq<byte>>, fi: nat, saved: Result<seq<byte>>)
    requires AllSaveReady(ls, ts) && fi < |ls| && AllSaveReady(ls[fi..], ts[fi..])
    requires SaveAll(ls, ts) == Prefixed(outs, SaveAll(ls[fi..], ts[fi..]))
    requires saved == Saved(ls[fi], ts[fi])
    ensures AllSaveReady(ls[fi + 1..], ts[fi + 1..])
    ensures saved.Err? ==> SaveAll(ls, ts) == Err(saved.error)
    ensures saved.Ok? ==> SaveAll(ls, ts) == Prefixed(outs + [saved.value], SaveAll(ls[fi + 1..], ts[fi + 1..]))
  {
    assert ls[fi..][1..] == ls[fi + 1..] && ts[fi..][1..] == ts[fi + 1..];
    var rest := SaveAll(ls[fi + 1..], ts[fi + 1..]);
    if saved.Ok? && rest.Ok? {
      assert outs + ([saved.value] + rest.value) == (outs + [saved.value]) + rest.value;
    }
  }

  /** One pass of the outer loop: file `fi` gets its share of the shuffled
      clips, starting at the counter `vi`, and is saved; the files before
      it already hold their shares and those after it their own clips. */
  method RefillSave(files: seq<ScdFile>, shuffled: seq<Voice>, fi: nat, vi: nat,
                    ghost before: seq<seq<Voice>>, ghost target: seq<seq<Voice>>)
    returns (saved: Result<seq<byte>>, next: nat)
    requires DistinctFiles(files) && fi < |files| == |before|
    requires |Pool(before)| <= |shuffled| && target == FillAll(before, shuffled)
    requires forall k :: 0 <= k < |files| ==>
      files[k].Valid() && files[k].voices == (if k < fi then target[k] else before[k])
    requires vi == |Pool(before[..fi])|
    modifies files[fi]
    ensures forall k :: 0 <= k < |files| ==>
      files[k].Valid() && files[k].voices == (if k < fi + 1 then target[k] else before[k])
    ensures next == |Pool(before[..fi + 1])|
    ensures SaveReady(files[fi].layout, target[fi]) && saved == Saved(files[fi].layout, target[fi])
  {
    FillAllAt(before, shuffled, fi);
    PoolPrefixNext(before, fi);
    forall k | 0 <= k < |files| && k != fi
      ensures files[k] != files[fi]
    {
      DistinctAt(files, k, fi);
    }
    next := Refill(files[fi], shuffled, vi);
    saved := files[fi].Save();
  }

  /** The outer loop of the main program, over the files in order: each
      file's real slots are refilled from the shuffled clips after those the
      earlier files took, and the file is saved.  The result is that of
      saving every file with its share of the shuffled clips, the first
      failing save ending the loop; when none fails, every file holds its
      share and the counter has handed out all the clips. */
  method RefillAll(files: seq<ScdFile>, shuffled: seq<Voice>,
                   ghost before: seq<seq<Voice>>, ghost layouts: seq<Layout>)
    returns (r: Result<seq<seq<byte>>>, used: nat)
    requires DistinctFiles(files) && |files| == |before| == |layouts|
    requires forall k :: 0 <= k < |files| ==>
      files[k].Valid() && files[k].voices == before[k] && files[k].layout == layouts[k]
    requires |Pool(before)| == |shuffled|
    modifies files
    ensures forall k :: 0 <= k < |files| ==> files[k].Valid()
    ensures var target := FillAll(before, shuffled);
      && AllSaveReady(layouts, target)
      && r == SaveAll(layouts, target)
      && (r.Ok? ==> (forall k :: 0 <= k < |files| ==> files[k].voices == target[k]) && used == |shuffled|)
  {
    ghost var target := FillAll(before, shuffled);
    assert AllSaveReady(layouts, target);
    var outs: seq<seq<byte>> := [];
    var vi: nat := 0;
    assert before[..0] == [] && layouts[0..] == layouts && target[0..] == target;
    if SaveAll(layouts, target).Ok? {
      assert [] + SaveAll(layouts, target).value == SaveAll(layouts, target).value;
    }
    for fi := 0 to |files|
      invariant forall k :: 0 <= k < |files| ==>
        files[k].Valid() && files[k].voices == (if k < fi then target[k] else before[k])
      invariant vi == |Pool(before[..fi])|
      invariant AllSaveReady(layouts[fi..], target[fi..])
      invariant SaveAll(layouts, target) == Prefixed(outs, SaveAll(layouts[fi..], target[fi..]))
    {
      var saved;
      saved, vi := RefillSave(files, shuffled, fi, vi, before, target);
      SaveAllNext(layouts, target, outs, fi, saved);
      if saved.Err? {
        assert SaveAll(layouts, target) == Err(saved.error);
        return Err(saved.error), vi;
      }
      outs := outs + [saved.value];
    }
    assert before[..|files|] == before;
    assert outs + [] == outs;
    assert SaveAll(layouts, target) == Ok(outs);
    return Ok(outs), vi;
  }

  /** One pass of the main program over the opened files: pool their real
      clips, shuffle the pool with one key per clip, then refill and save
      the files in order. */
  method Redistribute(files: seq<ScdFile>, keys: seq<int>) returns (r: Result<seq<seq<byte>>>, used: nat)
    requires DistinctFiles(files)
    requires forall k :: 0 <= k < |files| ==> files[k].Valid()
    requires |keys| == |Pool(VoiceLists(files))|
    modifies files
    ensures forall k :: 0 <= k < |files| ==> files[k].Valid()
    ensures var target := FillAll(old(VoiceLists(files)), Shuffle(keys, Pool(old(VoiceLists(files)))));
      && AllSaveReady(Layouts(files), target)
      && r == SaveAll(Layouts(files), target)
      && (r.Ok? ==> VoiceLists(files) == target && used == |keys|)
  {
    ghost var before := VoiceLists(files);
    var pool := Pool(VoiceLists(files));
    var shuffled := Shuffle(keys, pool);
    r, used := RefillAll(files, shuffled, before, Layouts(files));
    if r.Ok? {
      assert forall k :: 0 <= k < |files| ==> VoiceLists(files)[k] == FillAll(before, shuffled)[k];
    }
  }
}
