/** The Sentinel-2 band catalogue of source_s2.py: from band codes and a
    resolution to file-name keys, and from keys to the files of a product
    (a zip archive or a folder). */
module SourceS2 {
  import opened Wrappers
  import opened Text
  import opened Disk
  import Paths

  /** source_s2.py:8-22: band code -> (Sentinel-2 band id, resolutions in metres). */
  const BANDS: map<string, (string, seq<int>)> := map[
    "C" := ("B01", [20, 60]),
    "B" := ("B02", [10, 20, 60]),
    "G" := ("B03", [10, 20, 60]),
    "R" := ("B04", [10, 20, 60]),
    "RE1" := ("B05", [20, 60]),
    "RE2" := ("B06", [20, 60]),
    "RE3" := ("B07", [20, 60]),
    "N" := ("B08", [10]),
    "NN" := ("B8A", [20, 60]),
    "WV" := ("B09", [60]),
    "SWIR1" := ("B11", [20, 60]),
    "SWIR2" := ("B12", [20, 60]),
    "Q" := ("TCI", [10, 20, 60])
  ]

  datatype BandError =
    | UnknownBand(band: string)                              // source_s2.py:40
    | UnsupportedResolution(band: string, resolution: int)   // source_s2.py:36-37

  /** The band is in the catalogue and offered at this resolution. */
  predicate Offered(band: string, resolution: int) {
    band in BANDS && resolution in BANDS[band].1
  }

  /** source_s2.py:34: `f'{key}_{resolution}m.jp2'`. */
  function BandKey(band: string, resolution: int): string
    requires band in BANDS
  {
    BANDS[band].0 + "_" + IntToString(resolution) + "m.jp2"
  }

  /** The exception raised for a band that is not offered. */
  function BandFault(band: string, resolution: int): BandError {
    if band in BANDS then UnsupportedResolution(band, resolution) else UnknownBand(band)
  }

  /** source_s2.py:26-42: one key per band, in the order asked for, or the
      error for the first band that is not offered (no partial list). */
  method S2Bands(bandList: seq<string>, resolution: int) returns (r: Result<seq<string>, BandError>)
    ensures r.Ok? <==> forall i :: 0 <= i < |bandList| ==> Offered(bandList[i], resolution)
    ensures r.Ok? ==> (|r.value| == |bandList| &&
      forall i :: 0 <= i < |bandList| ==> r.value[i] == BandKey(bandList[i], resolution))
    ensures r.Err? ==> exists i :: (0 <= i < |bandList| && !Offered(bandList[i], resolution) &&
      (forall j :: 0 <= j < i ==> Offered(bandList[j], resolution)) &&
      r.error == BandFault(bandList[i], resolution))
  {
    var bandKeys: seq<string> := [];
    for i := 0 to |bandList|
      invariant forall j :: 0 <= j < i ==> Offered(bandList[j], resolution)
      invariant |bandKeys| == i
      invariant forall j :: 0 <= j < i ==> bandKeys[j] == BandKey(bandList[j], resolution)
    {
      var band := bandList[i];
      if band in BANDS {
        var (key, resolutions) := BANDS[band];
        if resolution in resolutions {
          assert Offered(band, resolution) && key + "_" + IntToString(resolution) + "m.jp2" == BandKey(band, resolution);
          bandKeys := bandKeys + [key + "_" + IntToString(resolution) + "m.jp2"];
        } else {
          assert !Offered(band, resolution) && UnsupportedResolution(band, resolution) == BandFault(band, resolution);
          return Err(UnsupportedResolution(band, resolution));
        }
      } else {
        assert !Offered(band, resolution) && UnknownBand(band) == BandFault(band, resolution);
        return Err(UnknownBand(band));
      }
    }
    return Ok(bandKeys);
  }

  lemma RedAt10Metres()
    ensures Offered("R", 10) && BandKey("R", 10) == "B04_10m.jp2"
  {
  }

  lemma NotOffered()
    ensures !Offered("N", 20) && BandFault("N", 20) == UnsupportedResolution("N", 20)
    ensures !Offered("WV", 10) && BandFault("WV", 10) == UnsupportedResolution("WV", 10)
    ensures !Offered("SWIRC", 20) && BandFault("SWIRC", 20) == UnknownBand("SWIRC")
  {
  }

  // ---------------------------------------------------------------------------
  // s2_files (source_s2.py:46-71)
  // ---------------------------------------------------------------------------

  /** The index of the first candidate that ends with `key`, if any
      (`FirstMatchIsFirst` states what it finds). */
  function FirstMatch(key: string, candidates: seq<string>): (m: Option<nat>)
    ensures m.Some? ==> m.value < |candidates|
  {
    if candidates == [] then None
    else if EndsWith(candidates[0], key) then Some(0)
    else match FirstMatch(key, candidates[1..])
      case None => None
      case Some(k) => Some(k + 1)
  }

  /** The index found ends with the key and no earlier candidate does; no
      index is found when no candidate ends with the key. */
  lemma {:induction false} FirstMatchIsFirst(key: string, candidates: seq<string>)
    ensures var m := FirstMatch(key, candidates);
      (m.Some? ==> (EndsWith(candidates[m.value], key) &&
        forall j :: 0 <= j < m.value ==> !EndsWith(candidates[j], key))) &&
      (m.None? ==> forall j :: 0 <= j < |candidates| ==> !EndsWith(candidates[j], key))
  {
    if candidates != [] && !EndsWith(candidates[0], key) {
      var rest := candidates[1..];
      FirstMatchIsFirst(key, rest);
      assert forall j :: 1 <= j < |candidates| ==> candidates[j] == rest[j - 1];
    }
  }

  /** The pick of one key: its first match, or nothing. */
  function Chosen(key: string, candidates: seq<string>): (c: seq<nat>)
    ensures |c| <= 1 && forall i :: 0 <= i < |c| ==> c[i] < |candidates|
  {
    match FirstMatch(key, candidates)
    case None => []
    case Some(m) => [m]
  }

  /** For the keys in order, the index of the candidate each one picks; keys
      without a match contribute nothing. */
  function Picks(keys: seq<string>, candidates: seq<string>): (picks: seq<nat>)
    ensures |picks| <= |keys|
    ensures forall i :: 0 <= i < |picks| ==> picks[i] < |candidates|
  {
    if keys == [] then []
    else Picks(keys[..|keys| - 1], candidates) + Chosen(keys[|keys| - 1], candidates)
  }

  function Pick(candidates: seq<string>, picks: seq<nat>): seq<string>
    requires forall i :: 0 <= i < |picks| ==> picks[i] < |candidates|
  {
    seq(|picks|, i requires 0 <= i < |picks| => candidates[picks[i]])
  }

  /** Every pick is the first match of one of the keys. */
  lemma {:induction false} PicksAreFirstMatches(keys: seq<string>, candidates: seq<string>, i: nat)
    requires i < |Picks(keys, candidates)|
    ensures exists k :: 0 <= k < |keys| && FirstMatch(keys[k], candidates) == Some(Picks(keys, candidates)[i])
  {
    var init := keys[..|keys| - 1];
    var head := Picks(init, candidates);
    if i < |head| {
      PicksAreFirstMatches(init, candidates, i);
      var k :| 0 <= k < |init| && FirstMatch(init[k], candidates) == Some(head[i]);
      assert init[k] == keys[k];
    } else {
      assert FirstMatch(keys[|keys| - 1], candidates) == Some(Picks(keys, candidates)[i]);
    }
  }

  /** When every key has a match, the picks are exactly one per key, in key order. */
  lemma {:induction false} PicksOnePerKey(keys: seq<string>, candidates: seq<string>)
    requires forall k :: 0 <= k < |keys| ==> FirstMatch(keys[k], candidates).Some?
    ensures |Picks(keys, candidates)| == |keys|
    ensures forall k :: 0 <= k < |keys| ==> FirstMatch(keys[k], candidates) == Some(Picks(keys, candidates)[k])
  {
    if keys != [] {
      var init := keys[..|keys| - 1];
      var last := keys[|keys| - 1];
      assert forall k :: 0 <= k < |init| ==> init[k] == keys[k];
      PicksOnePerKey(init, candidates);
      PickLast(keys, candidates);
    }
  }

  /** The step of `PicksOnePerKey`: a key with a match adds its first match
      after the picks of the earlier keys. */
  lemma PickLast(keys: seq<string>, candidates: seq<string>)
    requires keys != [] && FirstMatch(keys[|keys| - 1], candidates).Some?
    requires var init := keys[..|keys| - 1];
      |Picks(init, candidates)| == |init| &&
      forall k :: 0 <= k < |init| ==> FirstMatch(init[k], candidates) == Some(Picks(init, candidates)[k])
    ensures |Picks(keys, candidates)| == |keys|
    ensures forall k :: 0 <= k < |keys| ==> FirstMatch(keys[k], candidates) == Some(Picks(keys, candidates)[k])
  {
    var init := keys[..|keys| - 1];
    var head := Picks(init, candidates);
    var m := FirstMatch(keys[|keys| - 1], candidates).value;
    assert Chosen(keys[|keys| - 1], candidates) == [m];
    var picks := head + [m];
    assert Picks(keys, candidates) == picks;
    forall k | 0 <= k < |keys|
      ensures FirstMatch(keys[k], candidates) == Some(picks[k])
    {
      if k < |init| {
        assert keys[k] == init[k] && picks[k] == head[k];
      }
    }
  }

  /** The indices of the keys that have a match, in key order. */
  function MatchedKeys(keys: seq<string>, candidates: seq<string>): (ks: seq<nat>)
    ensures |ks| <= |keys|
    ensures forall i :: 0 <= i < |ks| ==> ks[i] < |keys|
  {
    if keys == [] then []
    else
      var last := |keys| - 1;
      MatchedKeys(keys[..last], candidates) + (if FirstMatch(keys[last], candidates).Some? then [last] else [])
  }

  /** The matched keys are taken in increasing order, and a key is among
      them exactly when it has a match. */
  lemma {:induction false} MatchedKeysOrdered(keys: seq<string>, candidates: seq<string>)
    ensures var ks := MatchedKeys(keys, candidates);
      (forall i, j :: 0 <= i < j < |ks| ==> ks[i] < ks[j]) &&
      (forall k :: 0 <= k < |keys| ==> (k in ks <==> FirstMatch(keys[k], candidates).Some?))
  {
    if keys != [] {
      var last := |keys| - 1;
      var init := keys[..last];
      MatchedKeysOrdered(init, candidates);
      var kh := MatchedKeys(init, candidates);
      var tail := if FirstMatch(keys[last], candidates).Some? then [last] else [];
      var ks := kh + tail;
      assert MatchedKeys(keys, candidates) == ks;
      forall k | 0 <= k < |keys|
        ensures k in ks <==> FirstMatch(keys[k], candidates).Some?
      {
        if k < last {
          assert init[k] == keys[k];
          assert k !in tail;
        } else {
          assert k !in kh;
        }
      }
    }
  }

  /** The picks follow the keys: the i-th pick is the first match of the i-th
      matched key, the matched keys are taken in increasing order, and every
      key with a match is among them. */
  lemma {:induction false} PicksFollowKeys(keys: seq<string>, candidates: seq<string>)
    ensures var picks := Picks(keys, candidates);
      var ks := MatchedKeys(keys, candidates);
      |ks| == |picks| &&
      (forall i, j :: 0 <= i < j < |ks| ==> ks[i] < ks[j]) &&
      (forall i :: 0 <= i < |ks| ==> FirstMatch(keys[ks[i]], candidates) == Some(picks[i])) &&
      (forall k :: 0 <= k < |keys| && FirstMatch(keys[k], candidates).Some? ==> k in ks)
  {
    MatchedKeysOrdered(keys, candidates);
    PicksMatchKeys(keys, candidates);
  }

  /** The first half of `PicksFollowKeys`: one pick per matched key, each
      that key's first match. */
  lemma {:induction false} PicksMatchKeys(keys: seq<string>, candidates: seq<string>)
    ensures var picks := Picks(keys, candidates);
      var ks := MatchedKeys(keys, candidates);
      |ks| == |picks| &&
      forall i :: 0 <= i < |ks| ==> FirstMatch(keys[ks[i]], candidates) == Some(picks[i])
  {
    if keys != [] {
      var last := |keys| - 1;
      var init := keys[..last];
      PicksMatchKeys(init, candidates);
      var head := Picks(init, candidates);
      var kh := MatchedKeys(init, candidates);
      var picks := Picks(keys, candidates);
      var ks := MatchedKeys(keys, candidates);
      match FirstMatch(keys[last], candidates)
      case None =>
        assert picks == head && ks == kh;
        assert forall i :: 0 <= i < |kh| ==> init[kh[i]] == keys[kh[i]];
      case Some(m) =>
        assert picks == head + [m] && ks == kh + [last];
        forall i | 0 <= i < |ks|
          ensures FirstMatch(keys[ks[i]], candidates) == Some(picks[i])
        {
          if i < |kh| {
            assert ks[i] == kh[i] && picks[i] == head[i] && init[kh[i]] == keys[kh[i]];
          }
        }
    }
  }

  /** Every file `s2_files` returns from a folder ends with one of the keys,
      at most one file per key; the i-th file ends with the i-th key that has
      a match, and with every key matched, exactly one per key in key order. */
  lemma FolderPicksEndWithKeys(keys: seq<string>, candidates: seq<string>)
    ensures var picks := Picks(keys, candidates);
      var files := Pick(candidates, picks);
      |files| <= |keys| &&
      (forall i :: 0 <= i < |files| ==> exists k :: 0 <= k < |keys| && EndsWith(files[i], keys[k])) &&
      ((forall k :: 0 <= k < |keys| ==> FirstMatch(keys[k], candidates).Some?) ==>
        |files| == |keys| && forall k :: 0 <= k < |keys| ==> EndsWith(files[k], keys[k]))
    ensures var files := Pick(candidates, Picks(keys, candidates));
      var ks := MatchedKeys(keys, candidates);
      |ks| == |files| && forall i :: 0 <= i < |files| ==> EndsWith(files[i], keys[ks[i]])
  {
    var picks := Picks(keys, candidates);
    var files := Pick(candidates, picks);
    var ks := MatchedKeys(keys, candidates);
    PicksFollowKeys(keys, candidates);
    forall i | 0 <= i < |files|
      ensures EndsWith(files[i], keys[ks[i]])
    {
      FirstMatchIsFirst(keys[ks[i]], candidates);
    }
    forall i | 0 <= i < |files|
      ensures exists k :: 0 <= k < |keys| && EndsWith(files[i], keys[k])
    {
      PicksAreFirstMatches(keys, candidates, i);
      var k :| 0 <= k < |keys| && FirstMatch(keys[k], candidates) == Some(picks[i]);
      FirstMatchIsFirst(keys[k], candidates);
      assert EndsWith(files[i], keys[k]);
    }
    if forall k :: 0 <= k < |keys| ==> FirstMatch(keys[k], candidates).Some? {
      PicksOnePerKey(keys, candidates);
      forall k | 0 <= k < |keys|
        ensures EndsWith(files[k], keys[k])
      {
        FirstMatchIsFirst(keys[k], candidates);
      }
    }
  }

  /** The nested loops of source_s2.py:65-69 (and 56-61): for each key, the
      first candidate that ends with it, stopping at that candidate. */
  method MatchKeys(keys: seq<string>, candidates: seq<string>) returns (picks: seq<nat>)
    ensures picks == Picks(keys, candidates)
  {
    picks := [];
    for k := 0 to |keys|
      invariant picks == Picks(keys[..k], candidates)
    {
      assert keys[..k + 1][..k] == keys[..k];
      var m := 0;
      while m < |candidates|
        invariant 0 <= m <= |candidates|
        invariant forall j :: 0 <= j < m ==> !EndsWith(candidates[j], keys[k])
      {
        if EndsWith(candidates[m], keys[k]) {
          MatchIsFirst(keys[k], candidates, m);
          picks := picks + [m];
          break;
        }
        m := m + 1;
      }
      if m == |candidates| {
        NoMatch(keys[k], candidates);
      }
    }
    assert keys[..|keys|] == keys;
  }

  lemma MatchIsFirst(key: string, candidates: seq<string>, m: nat)
    requires m < |candidates| && EndsWith(candidates[m], key)
    requires forall j :: 0 <= j < m ==> !EndsWith(candidates[j], key)
    ensures FirstMatch(key, candidates) == Some(m)
  {
    FirstMatchIsFirst(key, candidates);
  }

  lemma NoMatch(key: string, candidates: seq<string>)
    requires forall j :: 0 <= j < |candidates| ==> !EndsWith(candidates[j], key)
    ensures FirstMatch(key, candidates) == None
  {
    FirstMatchIsFirst(key, candidates);
  }

  /** A member of a zip archive: its path inside the archive and what
      extracting it writes. */
  datatype ZipMember = ZipMember(filename: string, content: Entry)

  function Names(members: seq<ZipMember>): (names: seq<string>)
    ensures |names| == |members| && forall i :: 0 <= i < |members| ==> names[i] == members[i].filename
  {
    seq(|members|, i requires 0 <= i < |members| => members[i].filename)
  }

  /** source_s2.py:50: the archive branch is taken for a file whose lower-cased
      name ends with `.zip`. */
  predicate IsZipSource(entries: Entries, source: string) {
    IsFile(entries, source) && EndsWith(Lower(source), ".zip")
  }

  /** The entries after extracting the picked members into `folder`, in order. */
  function Extracted(entries: Entries, folder: string, members: seq<ZipMember>, picks: seq<nat>): Entries
    requires forall i :: 0 <= i < |picks| ==> picks[i] < |members|
  {
    if picks == [] then entries
    else
      var m := members[picks[|picks| - 1]];
      Extracted(entries, folder, members, picks[..|picks| - 1])[Join(folder, m.filename) := m.content]
  }

  /** source_s2.py:46-71. `members` is the archive's member list when `source`
      is a zip file; `walk` is what `os.walk(source)` yields otherwise. */
  method S2Files(fs: FileSystem, source: string, bandKeys: seq<string>,
                 members: seq<ZipMember>, walk: seq<Paths.WalkStep>) returns (bandFiles: seq<string>)
    modifies fs
    ensures old(IsZipSource(fs.entries, source)) ==>
      var folder := Paths.TempPath(fs.tempRoot, Paths.FirstFree(old(fs.entries).Keys, fs.tempRoot));
      var picks := Picks(bandKeys, Names(members));
      |bandFiles| == |picks| &&
      (forall i :: 0 <= i < |picks| ==> bandFiles[i] == Join(folder, members[picks[i]].filename)) &&
      fs.entries == Extracted(old(fs.entries)[folder := Folder], folder, members, picks)
    ensures !old(IsZipSource(fs.entries, source)) ==>
      var files := Paths.Listed(walk, Some(Paths.NormaliseAll(["jp2"])));
      bandFiles == Pick(files, Picks(bandKeys, files)) && fs.entries == old(fs.entries)
  {
    if IsFile(fs.entries, source) && EndsWith(Lower(source), ".zip") {
      var folder := Paths.TempFolder(fs);
      var picks := MatchKeys(bandKeys, Names(members));
      bandFiles := ExtractPicked(fs, folder, members, picks);
    } else {
      var files := Paths.Files(walk, Some(["jp2"]));
      var picks := MatchKeys(bandKeys, files);
      bandFiles := [];
      for i := 0 to |picks|
        invariant bandFiles == Pick(files, picks[..i])
      {
        bandFiles := bandFiles + [files[picks[i]]];
      }
      assert picks[..|picks|] == picks;
    }
  }

  /** source_s2.py:59-60: each picked member is extracted into `folder` and its
      extracted path recorded. */
  method ExtractPicked(fs: FileSystem, folder: string, members: seq<ZipMember>, picks: seq<nat>)
      returns (bandFiles: seq<string>)
    requires forall i :: 0 <= i < |picks| ==> picks[i] < |members|
    modifies fs
    ensures |bandFiles| == |picks|
    ensures forall i :: 0 <= i < |picks| ==> bandFiles[i] == Join(folder, members[picks[i]].filename)
    ensures fs.entries == Extracted(old(fs.entries), folder, members, picks)
  {
    bandFiles := [];
    for i := 0 to |picks|
      invariant |bandFiles| == i
      invariant forall j :: 0 <= j < i ==> bandFiles[j] == Join(folder, members[picks[j]].filename)
      invariant fs.entries == Extracted(old(fs.entries), folder, members, picks[..i])
    {
      var member := members[picks[i]];
      var path := Join(folder, member.filename);
      ExtractedSnoc(old(fs.entries), folder, members, picks, i);
      fs.entries := fs.entries[path := member.content];
      ghost var done := bandFiles;
      bandFiles := bandFiles + [path];
      assert forall j :: 0 <= j < i ==> bandFiles[j] == done[j];
    }
    assert picks[..|picks|] == picks;
  }

  lemma ExtractedSnoc(entries: Entries, folder: string, members: seq<ZipMember>, picks: seq<nat>, i: nat)
    requires i < |picks| && forall j :: 0 <= j < |picks| ==> picks[j] < |members|
    ensures var m := members[picks[i]];
      Extracted(entries, folder, members, picks[..i + 1]) ==
        Extracted(entries, folder, members, picks[..i])[Join(folder, m.filename) := m.content]
  {
    assert picks[..i + 1][..i] == picks[..i];
  }

  /** In the archive branch each returned path is the temporary folder joined
      to a member name that ends with one of the keys: the i-th one ends with
      the i-th key that has a match. */
  lemma ZipPicksEndWithKeys(bandKeys: seq<string>, members: seq<ZipMember>, i: nat)
    requires i < |Picks(bandKeys, Names(members))|
    ensures Picks(bandKeys, Names(members))[i] < |members|
    ensures exists k :: (0 <= k < |bandKeys| &&
      EndsWith(members[Picks(bandKeys, Names(members))[i]].filename, bandKeys[k]))
    ensures i < |MatchedKeys(bandKeys, Names(members))|
    ensures EndsWith(members[Picks(bandKeys, Names(members))[i]].filename,
      bandKeys[MatchedKeys(bandKeys, Names(members))[i]])
  {
    PicksFollowKeys(bandKeys, Names(members));
    var ks := MatchedKeys(bandKeys, Names(members));
    FirstMatchIsFirst(bandKeys[ks[i]], Names(members));
    PicksAreFirstMatches(bandKeys, Names(members), i);
    var picks := Picks(bandKeys, Names(members));
    var k :| 0 <= k < |bandKeys| && FirstMatch(bandKeys[k], Names(members)) == Some(picks[i]);
    FirstMatchIsFirst(bandKeys[k], Names(members));
    assert EndsWith(Names(members)[picks[i]], bandKeys[k]);
  }
}
