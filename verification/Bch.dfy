// The BCH words of auth/flow-ui/qr.js: the source's division loops yield the tables that
// ISO/IEC 18004 prints for format and version information.
module Bch {
  import opened Assembly
  import opened Pattern

  function FormatStep(rem: bv32): bv32 {
    (rem << 1) ^ ((rem >> 9) * 0x537)
  }

  function FormatSteps(rem: bv32, n: nat): bv32 {
    if n == 0 then rem else FormatStep(FormatSteps(rem, n - 1))
  }

  function FormatJoin(data: bv32, rem: bv32): bv32 {
    ((data << 10) | rem) ^ 0x5412
  }

  function FormatWord(data: bv32): bv32 {
    FormatJoin(data, FormatSteps(data, 10))
  }

  function VersionStep(rem: bv32): bv32 {
    (rem << 1) ^ ((rem >> 11) * 0x1f25)
  }

  function VersionSteps(rem: bv32, n: nat): bv32 {
    if n == 0 then rem else VersionStep(VersionSteps(rem, n - 1))
  }

  function VersionJoin(version: bv32, rem: bv32): bv32 {
    (version << 12) | rem
  }

  function VersionWord(version: bv32): bv32 {
    VersionJoin(version, VersionSteps(version, 12))
  }

  function FormatFive(r: bv32): bv32 {
    FormatStep(FormatStep(FormatStep(FormatStep(FormatStep(r)))))
  }

  function VersionSix(r: bv32): bv32 {
    VersionStep(VersionStep(VersionStep(VersionStep(VersionStep(VersionStep(r))))))
  }

  lemma FormatTen(r: bv32)
    ensures FormatSteps(r, 10) == FormatFive(FormatFive(r))
  {
    hide FormatStep;
    assert FormatSteps(r, 1) == FormatStep(r);
    assert FormatSteps(r, 3) == FormatStep(FormatSteps(r, 2));
    assert FormatSteps(r, 5) == FormatFive(r);
    assert FormatSteps(r, 6) == FormatStep(FormatFive(r));
    assert FormatSteps(r, 8) == FormatStep(FormatSteps(r, 7));
  }

  lemma VersionTwelve(r: bv32)
    ensures VersionSteps(r, 12) == VersionSix(VersionSix(r))
  {
    hide VersionStep;
    assert VersionSteps(r, 1) == VersionStep(r);
    assert VersionSteps(r, 3) == VersionStep(VersionSteps(r, 2));
    assert VersionSteps(r, 5) == VersionStep(VersionSteps(r, 4));
    assert VersionSteps(r, 6) == VersionSix(r);
    assert VersionSteps(r, 7) == VersionStep(VersionSix(r));
    assert VersionSteps(r, 9) == VersionStep(VersionSteps(r, 8));
    assert VersionSteps(r, 11) == VersionStep(VersionSteps(r, 10));
  }

  lemma FormatWordFrom(data: bv32, rem: bv32)
    requires FormatFive(FormatFive(data)) == rem
    ensures FormatWord(data) == ((data << 10) | rem) ^ 0x5412
  {
    FormatTen(data);
    hide FormatSteps, FormatFive;
  }

  lemma VersionWordFrom(version: bv32, rem: bv32)
    requires VersionSix(VersionSix(version)) == rem
    ensures VersionWord(version) == (version << 12) | rem
  {
    VersionTwelve(version);
    hide VersionSteps, VersionSix;
  }

  lemma FormatWord0() ensures FormatWord(0) == 0x5412 { FormatWordFrom(0, 0x0); }
  lemma FormatWord1() ensures FormatWord(1) == 0x5125 { FormatWordFrom(1, 0x137); }
  lemma FormatWord2() ensures FormatWord(2) == 0x5e7c { FormatWordFrom(2, 0x26e); }
  lemma FormatWord3() ensures FormatWord(3) == 0x5b4b { FormatWordFrom(3, 0x359); }
  lemma FormatWord4() ensures FormatWord(4) == 0x45f9 { FormatWordFrom(4, 0x1eb); }
  lemma FormatWord5() ensures FormatWord(5) == 0x40ce { FormatWordFrom(5, 0xdc); }
  lemma FormatWord6() ensures FormatWord(6) == 0x4f97 { FormatWordFrom(6, 0x385); }
  lemma FormatWord7() ensures FormatWord(7) == 0x4aa0 { FormatWordFrom(7, 0x2b2); }

  lemma VersionWord7() ensures VersionWord(7) == 0x7c94 { VersionWordFrom(7, 0xc94); }
  lemma VersionWord8() ensures VersionWord(8) == 0x85bc { VersionWordFrom(8, 0x5bc); }
  lemma VersionWord9() ensures VersionWord(9) == 0x9a99 { VersionWordFrom(9, 0xa99); }
  lemma VersionWord10() ensures VersionWord(10) == 0xa4d3 { VersionWordFrom(10, 0x4d3); }
  lemma VersionWord11() ensures VersionWord(11) == 0xbbf6 { VersionWordFrom(11, 0xbf6); }
  lemma VersionWord12() ensures VersionWord(12) == 0xc762 { VersionWordFrom(12, 0x762); }
  lemma VersionWord13() ensures VersionWord(13) == 0xd847 { VersionWordFrom(13, 0x847); }
  lemma VersionWord14() ensures VersionWord(14) == 0xe60d { VersionWordFrom(14, 0x60d); }
  lemma VersionWord15() ensures VersionWord(15) == 0xf928 { VersionWordFrom(15, 0x928); }

  // The words of ISO/IEC 18004, Annex C, for level M and each mask.
  lemma FormatTable(mask: Mask)
    ensures FormatWord(mask as bv32) as int == FormatInfo(mask)
  {
    hide FormatWord;
    match mask
    case 0 => FormatWord0();
    case 1 => FormatWord1();
    case 2 => FormatWord2();
    case 3 => FormatWord3();
    case 4 => FormatWord4();
    case 5 => FormatWord5();
    case 6 => FormatWord6();
    case _ => FormatWord7();
  }

  // The words of ISO/IEC 18004, Annex D, for versions 7 to 15.
  lemma VersionTable(v: Version)
    requires v >= 7
    ensures VersionWord(v as bv32) as int == VersionInfo(v)
  {
    hide VersionWord;
    match v
    case 7 => VersionWord7();
    case 8 => VersionWord8();
    case 9 => VersionWord9();
    case 10 => VersionWord10();
    case 11 => VersionWord11();
    case 12 => VersionWord12();
    case 13 => VersionWord13();
    case 14 => VersionWord14();
    case _ => VersionWord15();
  }

  method ComputeFormat(mask: Mask) returns (fmt: nat)
    ensures fmt == FormatInfo(mask)
  {
    hide FormatStep, FormatJoin;
    var fmtData: bv32 := mask as bv32;
    var rem := fmtData;
    for i := 0 to 10
      invariant rem == FormatSteps(fmtData, i)
    {
      rem := FormatStep(rem);
    }
    FormatTable(mask);
    fmt := FormatJoin(fmtData, rem) as int;
  }

  method ComputeVersion(v: Version) returns (vbits: nat)
    requires v >= 7
    ensures vbits == VersionInfo(v)
  {
    hide VersionStep, VersionJoin;
    var version: bv32 := v as bv32;
    var rem := version;
    for i := 0 to 12
      invariant rem == VersionSteps(version, i)
    {
      rem := VersionStep(rem);
    }
    VersionTable(v);
    vbits := VersionJoin(version, rem) as int;
  }
}
