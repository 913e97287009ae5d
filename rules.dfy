/** The two validation rules of `IFUCube`: `check_data` (presence of the
    data array, never fixable) and `check_ctype` (presence of the three
    CTYPEn header keys, repaired in place when asked to). */
module Rules {
  import opened Fits

  // ---------------------------------------------------------------------
  // check_data
  // ---------------------------------------------------------------------

  /** `check_data`: the data must exist and must not be None. Neither
      failure can be fixed: with `fix` the rule returns False at once, and
      without it returns the `good` flag it has just cleared, so the verdict
      is the same either way. The shape of present data is only logged.
      Being a function, it cannot write to the container. */
  function CheckData(data: DataAttr, fix: bool): (good: bool)
    ensures good <==> data.Present?
  {
    match data
    case NoAttr => false
    case NoneData => false
    case Present(_) => true
  }

  // ---------------------------------------------------------------------
  // check_ctype: key names and the value a repair writes
  // ---------------------------------------------------------------------

  /** The key `'CTYPE' + str(n)` for axis `n`. */
  function CtypeKey(n: nat): (key: string)
    requires n < 10
    ensures |key| == 6 && key[..5] == "CTYPE"
    ensures key[5] as int == '0' as int + n
  {
    "CTYPE" + [('0' as int + n) as char]
  }

  /** The keys the loop `for ctype_num in range(1, 4)` visits, in order. */
  function CtypeKeys(): (keys: seq<string>)
    ensures |keys| == 3
    ensures forall i, j :: 0 <= i < j < |keys| ==> keys[i] != keys[j]
  {
    [CtypeKey(1), CtypeKey(2), CtypeKey(3)]
  }

  lemma CtypeKeysAreLiterals()
    ensures CtypeKeys() == ["CTYPE1", "CTYPE2", "CTYPE3"]
  {
    assert CtypeKey(1) == "CTYPE" + ['1'] == "CTYPE1";
    assert CtypeKey(2) == "CTYPE" + ['2'] == "CTYPE2";
    assert CtypeKey(3) == "CTYPE" + ['3'] == "CTYPE3";
  }

  /** The repair of one missing key: three assignments to the same card,
      each overwriting the one before, so only the last survives: `'WAVE'`
      for CTYPE3 and False for every other key. */
  function FixCtype(h: Header, key: string): (h': Header)
    ensures h'.Keys == h.Keys + {key}
    ensures forall k :: k in h && k != key ==> h'[k] == h[k]
    ensures h'[key] == WrittenValue(key)
  {
    h[key := if key == "CTYPE1" then Str("RA---TAN") else Bool(false)]
     [key := if key == "CTYPE2" then Str("DEC--TAN") else Bool(false)]
     [key := if key == "CTYPE3" then Str("WAVE") else Bool(false)]
  }

  /** The value a repair leaves on a missing key. */
  function WrittenValue(key: string): (v: HVal)
  {
    if key == "CTYPE3" then Str("WAVE") else Bool(false)
  }

  lemma WrittenValues()
    ensures WrittenValue(CtypeKey(1)) == Bool(false)
    ensures WrittenValue(CtypeKey(2)) == Bool(false)
    ensures WrittenValue(CtypeKey(3)) == Str("WAVE")
  {
    CtypeKeysAreLiterals();
  }

  // ---------------------------------------------------------------------
  // check_ctype: specification
  // ---------------------------------------------------------------------

  /** The loop of `check_ctype` over `keys`, as a function of the header on
      entry: the verdict (`good`) and the header it leaves behind. Each key
      is looked up in the header as left by the keys before it. */
  function CtypeScan(h: Header, keys: seq<string>, fix: bool): (r: (bool, Header))
    ensures r.0 ==> r.1 == h
    decreases |keys|
  {
    if keys == [] then (true, h)
    else
      var present := keys[0] in h;
      var h1 := if !present && fix then FixCtype(h, keys[0]) else h;
      var rest := CtypeScan(h1, keys[1..], fix);
      (present && rest.0, rest.1)
  }

  /** One turn of the loop: the first key, then the rest. */
  lemma ScanStep(h: Header, keys: seq<string>, fix: bool)
    requires keys != []
    ensures var h1 := if keys[0] !in h && fix then FixCtype(h, keys[0]) else h;
      var rest := CtypeScan(h1, keys[1..], fix);
      CtypeScan(h, keys, fix) == (keys[0] in h && rest.0, rest.1)
  {
  }

  /** The verdict is True exactly when every key was present on entry, with
      or without `fix`: a repair made during the loop never turns it True. */
  lemma {:induction false} ScanVerdict(h: Header, keys: seq<string>, fix: bool)
    ensures CtypeScan(h, keys, fix).0 <==> forall k :: k in keys ==> k in h
    decreases |keys|
  {
    if keys != [] {
      if keys[0] in h {
        ScanVerdict(h, keys[1..], fix);
        assert forall k :: k in keys ==> k == keys[0] || k in keys[1..];
      }
    }
  }

  /** Without `fix` the header is left exactly as it was. */
  lemma {:induction false} ScanReadOnly(h: Header, keys: seq<string>)
    ensures CtypeScan(h, keys, false).1 == h
    decreases |keys|
  {
    if keys != [] {
      ScanReadOnly(h, keys[1..]);
    }
  }

  /** With `fix`: afterwards every key is present, a key present on entry
      keeps its value, a missing one holds the value written for it, and no
      other key appears. */
  lemma {:induction false} ScanRepairs(h: Header, keys: seq<string>)
    ensures CtypeScan(h, keys, true).1.Keys == h.Keys + (set k | k in keys)
    ensures forall k :: k in h ==> CtypeScan(h, keys, true).1[k] == h[k]
    ensures forall k :: k in keys && k !in h ==> CtypeScan(h, keys, true).1[k] == WrittenValue(k)
    decreases |keys|
  {
    if keys != [] {
      var h1 := if keys[0] !in h then FixCtype(h, keys[0]) else h;
      ScanRepairs(h1, keys[1..]);
      assert forall k :: k in keys ==> k == keys[0] || k in keys[1..];
      assert (set k | k in keys) == {keys[0]} + (set k | k in keys[1..]);
    }
  }

  /** A header that already holds every key passes and is not touched. */
  lemma {:induction false} ScanAllPresent(h: Header, keys: seq<string>, fix: bool)
    requires forall k :: k in keys ==> k in h
    ensures CtypeScan(h, keys, fix) == (true, h)
    decreases |keys|
  {
    if keys != [] {
      ScanAllPresent(h, keys[1..], fix);
    }
  }

  /** Repairing is idempotent and converges: a second fixing pass over the
      repaired header passes and changes nothing. */
  lemma ScanFixIdempotent(h: Header, keys: seq<string>)
    ensures var h' := CtypeScan(h, keys, true).1;
      CtypeScan(h', keys, true) == (true, h')
  {
    ScanRepairs(h, keys);
    var h' := CtypeScan(h, keys, true).1;
    assert forall k :: k in keys ==> k in h';
    ScanAllPresent(h', keys, true);
  }

  /** Detection comes first: `fix` changes the header, never the verdict. */
  lemma ScanFixNeverUpgrades(h: Header, keys: seq<string>)
    ensures CtypeScan(h, keys, true).0 == CtypeScan(h, keys, false).0
  {
    ScanVerdict(h, keys, true);
    ScanVerdict(h, keys, false);
  }

  /** The facts above, for the three CTYPE keys. */
  lemma CtypeContract(h: Header, fix: bool)
    ensures var (good, h') := CtypeScan(h, CtypeKeys(), fix);
      && (good <==> forall k :: k in CtypeKeys() ==> k in h)
      && (!fix ==> h' == h)
      && (fix ==> forall k :: k in CtypeKeys() ==> k in h')
      && (fix ==> forall k :: k in h ==> k in h' && h'[k] == h[k])
      && (forall k :: k in h' ==> k in h || k in CtypeKeys())
  {
    ScanVerdict(h, CtypeKeys(), fix);
    ScanReadOnly(h, CtypeKeys());
    ScanRepairs(h, CtypeKeys());
  }

  // ---------------------------------------------------------------------
  // check_ctype: the in-place rule
  // ---------------------------------------------------------------------

  /** `check_ctype`: for CTYPE1, CTYPE2, CTYPE3 in turn, a missing key makes
      the rule fail and, with `fix`, is written into the header in place; a
      present key is only reported, its value is not checked. */
  method CheckCtype(hdu: Hdu, fix: bool) returns (good: bool)
    modifies hdu
    ensures (good, hdu.header) == CtypeScan(old(hdu.header), CtypeKeys(), fix)
    ensures good <==> forall k :: k in CtypeKeys() ==> k in old(hdu.header)
    ensures !fix ==> hdu.header == old(hdu.header)
    ensures fix ==> forall k :: k in CtypeKeys() ==> k in hdu.header
    ensures fix ==> forall k :: k in old(hdu.header) ==> k in hdu.header && hdu.header[k] == old(hdu.header)[k]
    ensures forall k :: k in hdu.header ==> k in old(hdu.header) || k in CtypeKeys()
    ensures hdu.data == old(hdu.data)
  {
    ghost var keys := CtypeKeys();
    ghost var result := CtypeScan(hdu.header, keys, fix);
    good := true;
    for n := 1 to 4
      invariant hdu.data == old(hdu.data)
      invariant good && CtypeScan(hdu.header, keys[n - 1..], fix).0 <==> result.0
      invariant CtypeScan(hdu.header, keys[n - 1..], fix).1 == result.1
    {
      var ctype := CtypeKey(n);
      ghost var before := hdu.header;
      if ctype !in hdu.header {
        good := false;
        if fix {
          hdu.header := hdu.header[ctype := if ctype == "CTYPE1" then Str("RA---TAN") else Bool(false)];
          hdu.header := hdu.header[ctype := if ctype == "CTYPE2" then Str("DEC--TAN") else Bool(false)];
          hdu.header := hdu.header[ctype := if ctype == "CTYPE3" then Str("WAVE") else Bool(false)];
          assert hdu.header == FixCtype(before, ctype);
        }
      }
      ghost var rest := CtypeScan(hdu.header, keys[n..], fix);
      assert CtypeScan(before, keys[n - 1..], fix) == (ctype in before && rest.0, rest.1) by {
        ScanStep(before, keys[n - 1..], fix);
        assert keys[n - 1..][0] == ctype && keys[n - 1..][1..] == keys[n..];
      }
    }
    CtypeContract(old(hdu.header), fix);
  }
}
