/** Where the three candidate filters part ways: the zero-count filter of
    `client/activator.py` against the RFC 4122 version and variant checks
    of the other two activators. */
module Variants {
  import opened GuidShape
  import Client
  import MacGui
  import ClientMacos

  /** A string in which `c` does not occur counts no `c`. */
  lemma Absent(s: string, c: char)
    requires forall i :: 0 <= i < |s| ==> s[i] != c
    ensures multiset(s)[c] == 0
  {
    assert c !in s;
  }

  /** A GUID-shaped string has exactly its four dashes. */
  lemma ShapeDashes(g: string)
    requires IsGuidShape(g)
    ensures multiset(g)['-'] == 4
  {
    var a, b, c, d, e := g[..8], g[9..13], g[14..18], g[19..23], g[24..];
    assert g == a + [g[8]] + b + [g[13]] + c + [g[18]] + d + [g[23]] + e;
    Absent(a, '-');
    Absent(b, '-');
    Absent(c, '-');
    Absent(d, '-');
    Absent(e, '-');
  }

  /** On a GUID-shaped match, the zero-count filter accepts exactly the
      GUIDs with at most 24 zero digits of their 32. */
  lemma NotTrashOnGuids(g: string)
    requires IsGuidShape(g)
    ensures Client.NotTrash(g) <==> multiset(g)['0'] <= 24
  {
    ShapeDashes(g);
    Client.NotTrashIff(g);
  }

  /** A string of nothing but `c` counts a `c` per character. */
  lemma {:induction false} Only(s: string, c: char)
    requires forall i :: 0 <= i < |s| ==> s[i] == c
    ensures multiset(s)[c] == |s|
  {
    if s != [] {
      Only(s[1..], c);
      assert s == [s[0]] + s[1..];
    }
  }

  /** The zero-count filter ignores the version: any GUID-shaped match with
      at most 24 zeros passes it, whatever its version nibble, while both
      version checks refuse a version other than 4. */
  lemma VersionBlind(g: string)
    requires IsGuidShape(g) && multiset(g)['0'] <= 24 && g[14] != '4'
    ensures Client.NotTrash(g)
    ensures !ClientMacos.ValidateGuid(g) && !MacGui.ValidateGuidStructure(g)
  {
    NotTrashOnGuids(g);
    ClientMacos.ValidateGuidIff(g);
    MacGui.ValidateGuidStructureIff(g);
  }

  /** A valid version-4 GUID of more than 24 zeros passes both version
      checks and fails the zero-count filter. */
  lemma ZeroHeavy(g: string)
    requires IsUpperGuid(g) && g[14] == '4' && g[19] in "89AB" && multiset(g)['0'] > 24
    ensures !Client.NotTrash(g)
    ensures ClientMacos.ValidateGuid(g) && MacGui.ValidateGuidStructure(g)
  {
    assert IsGuidShape(g);
    NotTrashOnGuids(g);
    ClientMacos.ValidateGuidIff(g);
    MacGui.ValidateGuidStructureIff(g);
  }

  /** The GUID of all ones passes the zero-count filter only. */
  lemma OnesDisagree()
    ensures exists g :: (IsGuidShape(g) && Client.NotTrash(g)
      && !ClientMacos.ValidateGuid(g) && !MacGui.ValidateGuidStructure(g))
  {
    var ones := seq(GUID_LEN, i => if IsDashIndex(i) then '-' else '1');
    assert IsGuidShape(ones);
    Absent(ones, '0');
    VersionBlind(ones);
  }

  /** The zero GUID with version 4 and variant 8 passes the version checks
      only. */
  lemma ZerosDisagree()
    ensures exists g :: (IsUpperGuid(g) && !Client.NotTrash(g)
      && ClientMacos.ValidateGuid(g) && MacGui.ValidateGuidStructure(g))
  {
    var zeros := seq(GUID_LEN, i => if IsDashIndex(i) then '-' else if i == 14 then '4' else if i == 19 then '8' else '0');
    assert IsUpperGuid(zeros);
    var a, b, c, d, e := zeros[..8], zeros[9..13], zeros[15..18], zeros[20..23], zeros[24..];
    Only(a, '0');
    Only(b, '0');
    Only(c, '0');
    Only(d, '0');
    Only(e, '0');
    assert zeros == a + zeros[8..9] + b + zeros[13..15] + c + zeros[18..20] + d + zeros[23..24] + e;
    ZeroHeavy(zeros);
  }
}
