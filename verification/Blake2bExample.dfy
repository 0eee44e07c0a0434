/** The worked example of RFC 7693, appendix A: BLAKE2b-512 of the three bytes "abc". It fixes the
    constants and the rotations that the definition and the kernel share. */
module Blake2bExample {
  import opened Blake2b
  import opened Blake2bRounds

  // ---------------------------------------------------------------------------
  // The states between rounds, as diagonals, and the scheduled words
  // ---------------------------------------------------------------------------

  const D0 := Four(
    Bits(0x6A09E667F2BDC948, 0x9B05688C2B3E6C1F, 0x3C6EF372FE94F82B, 0x5BE0CD19137E2179),
    Bits(0xBB67AE8584CAA73B, 0x1F83D9ABFB41BD6B, 0xA54FF53A5F1D36F1, 0x510E527FADE682D2),
    Bits(0x3C6EF372FE94F82B, 0x5BE0CD19137E2179, 0x6A09E667F3BCC908, 0x9B05688C2B3E6C1F),
    Bits(0xA54FF53A5F1D36F1, 0x510E527FADE682D1, 0xBB67AE8584CAA73B, 0xE07C265404BE4294))

  const X0 := Scheduled(
    0x636261, 0, 0, 0, 0, 0, 0, 0, 0, 0, 0, 0, 0, 0, 0, 0)

  const D1 := Four(
    Bits(0x86B7C1568029BB79, 0xA447C850AA694A7E, 0xFA87B01273FA6DBE, 0x2318A24E2140FC64),
    Bits(0xC12CBCC809FF59F3, 0xDE080F1BB1C0F84B, 0x521A715C63E08D8A, 0xE02D0975B8D37A83),
    Bits(0xC6A5214CC0EACA8E, 0x595CB8A9A1ACA66C, 0xBEC3AE837EAC4887, 0x1C7B754F08B7D193),
    Bits(0x0C87CD524C14CC5D, 0x44EE6039BD86A9F7, 0x6267FC79DF9D6AD1, 0x8F885A76B6E578FE))

  const X1 := Scheduled(
    0, 0, 0, 0, 0, 0, 0, 0, 0, 0, 0x636261, 0, 0, 0, 0, 0)

  const D2 := Four(
    Bits(0x53281E83806010F2, 0xCA5425AEC65A10A8, 0xE9E4AD0D0E1A0D48, 0x572D17EFFDD37358),
    Bits(0x3594B403F81B4393, 0xC6A22E2FF0F7AA48, 0x85DF9DC143C59A74, 0x92A3AAAA6D952B7F),
    Bits(0x8CD63C7462DE0DFF, 0xC6A56A51CB89C595, 0x224E6A3369224F96, 0xC5FDF71090FAE853),
    Bits(0x85F693F3DA53F974, 0xBAABDBB2F386D9AE, 0x500E125E58A92923, 0x2A8A40F15A462DD0))

  const X2 := Scheduled(
    0, 0, 0, 0x636261, 0, 0, 0, 0, 0, 0, 0, 0, 0, 0, 0, 0)

  const D3 := Four(
    Bits(0x60ED96AA7AD41725, 0xB1DD230754D7BDEE, 0xF1DE8696BEC11BF1, 0x716343F52FDD265E),
    Bits(0xE46A743C71800B9D, 0x25A1422779E06D14, 0xA0EBD586A4A1D2C8, 0xC804EBAB11C99FA9),
    Bits(0x1A04B543A01F156B, 0xE6823AE4C3FF58A5, 0xA1677E19F37FD5DA, 0x8E0CEC959C715793),
    Bits(0xA2F8716E775C4877, 0xDA0A61BCDE4267EA, 0x22BDCE6976B08C51, 0x7C45557FAE0D4D89))

  const X3 := Scheduled(
    0, 0, 0, 0, 0, 0, 0, 0, 0, 0, 0, 0, 0, 0x636261, 0, 0)

  const D4 := Four(
    Bits(0xBB2A77D3A8382351, 0x24192E49EBF54EA0, 0x5B44273E66B19D27, 0x3E7B5F234CD1F804),
    Bits(0x45EB47971F23B103, 0x4F82C9401CB32D7A, 0xB6D5C9FCA2579327, 0x086092CFB858437E),
    Bits(0x98BE297F6E45C684, 0x8CCD013726420DC4, 0xA9C9A8F17B1FC614, 0x5C4BE2156DBEECF9),
    Bits(0xA36077DEE3370B89, 0x8A03C4CB7E97590A, 0x55908187977514A0, 0x2EFEDE99ED4EFF16))

  const X4 := Scheduled(
    0, 0x636261, 0, 0, 0, 0, 0, 0, 0, 0, 0, 0, 0, 0, 0, 0)

  const D5 := Four(
    Bits(0xC79C15B3D423B099, 0x6FE66467AF88C0A9, 0x79E02EEF20CDB1AE, 0x1205EA4A7859807D),
    Bits(0x2DA2224E8DA97556, 0x4EB0B76284C7AAFB, 0x64B3EED7BB602F39, 0xB97D2D439E4DF63D),
    Bits(0x77D2B26DF1C45C55, 0x299C8E725D954697, 0xB2240B59E6D567D3, 0xC718E755294C9111),
    Bits(0x8934EB09A3456052, 0x0F6D9EEED157DA2A, 0x2643C2370E49EBFD, 0x1F0893F2772BB373))

  const X5 := Scheduled(
    0, 0, 0, 0, 0x636261, 0, 0, 0, 0, 0, 0, 0, 0, 0, 0, 0)

  const D6 := Four(
    Bits(0xE58F97D6385BAEE4, 0x9E472AF0BE3DB3F6, 0xA2C3ABBD37510EE2, 0xDB2161604CBC9828),
    Bits(0x7640AA9764DA137A, 0x0F244C62DDF71788, 0xCB5668CC2A9F7859, 0x8733794F07AC1500),
    Bits(0xDEB4C7C23EFE287E, 0x219828AA83880842, 0x41CCA9073C8C4D0D, 0xC67A6BE42335AA6F),
    Bits(0x70F6F41C8783C9F6, 0x7127CD48C76A7708, 0x5C7912BC10DF3B4B, 0xACB22B28681E4C82))

  const X6 := Scheduled(
    0, 0, 0, 0, 0, 0, 0, 0, 0x636261, 0, 0, 0, 0, 0, 0, 0)

  const D7 := Four(
    Bits(0x6E2D286EEADEDC81, 0xB63C479A6A769F02, 0x5777272AE1E930C0, 0xE03C6CC89C26BF92),
    Bits(0xBCF02C0787E86358, 0x258E55E0EC1F362A, 0x5A387849E578DBF6, 0x92AAC307CF2C0AFC),
    Bits(0x57D56A56DD015EDF, 0x3A3B4EC60E19DFDC, 0x04D769B3FCB048DB, 0x30AACCC4F06DAFAA),
    Bits(0x55D899D40A5D0D0A, 0x819415B56220C459, 0xB78A9A33E9BFF4DD, 0x483893CC094F8863))

  const X7 := Scheduled(
    0, 0, 0, 0, 0, 0, 0, 0, 0, 0x636261, 0, 0, 0, 0, 0, 0)

  const D8 := Four(
    Bits(0xFFC83ECE76024D01, 0xE1179523A2541963, 0x30BBCC0285A22F65, 0xB0B9F0D443D1A889),
    Bits(0x1BE7BFFB8C5CC5F9, 0x3A1FAD7106232B8F, 0xBCEFBB6A81539E5D, 0x3841DEF6F4C9848A),
    Bits(0xA35A18CBAC4C65B7, 0x1C7EDE92AB8B9C46, 0xA3C2D35E4F685C10, 0x98662C85FBA726D4),
    Bits(0xB7C2C7E6D88C285F, 0x81937DA314A50838, 0xA53D3F73AA619624, 0x7762439BD5A851BD))

  const X8 := Scheduled(
    0, 0, 0, 0, 0, 0, 0x636261, 0, 0, 0, 0, 0, 0, 0, 0, 0)

  const D9 := Four(
    Bits(0x753A70A1E8FAEADD, 0x63C5B9B80D294CB9, 0x5DA7F7638CEC5669, 0xFD3F572687FEA4F1),
    Bits(0x6B0D43CA2C25D629, 0x490870ECAD27DEBD, 0xD9C8826727D306FC, 0x88ED6C4F3BD7A537),
    Bits(0xF8343BA8B94F8C0B, 0xB2A90DDF667287FE, 0x316CC9EBEEFAD8FC, 0x19AE688DDF67F026),
    Bits(0xBC7D062B0DB5CF35, 0x58540EE1B1AEBC47, 0x4A466BCD021526A4, 0x4D8707AAB40F7E6D))

  const X9 := Scheduled(
    0, 0, 0, 0, 0, 0, 0, 0, 0, 0, 0, 0, 0, 0, 0, 0x636261)

  const D10 := Four(
    Bits(0xE630C747CCD59C4F, 0x5F311B88904056EC, 0x900AEE2F233B08E5, 0x01369EC18746E775),
    Bits(0xBC713D41127571CA, 0x40BD313009201AAB, 0xA07199D87AD058D8, 0x2C6B25593D717852),
    Bits(0x46DB183025025078, 0x0099D4F82A2A1EAB, 0x6DD4FBC1DE60165D, 0x37E8CA471BEAA5F8),
    Bits(0x6727E81260610140, 0x2D04185EAC2A8CBA, 0xB3B0B51DE3C86270, 0x2CFC1BAC10EF4457))

  const D11 := Four(
    Bits(0xE801F73B9768C760, 0x3CC88735D1475E4B, 0x733D1A17248F39DB, 0x02231E1A917FE0BD),
    Bits(0x35C6D22320BE511D, 0x5DAC67921FF76949, 0x92D57B736F5F170A, 0x61B5C0A41D491399),
    Bits(0x306F27584F65495E, 0x1CDB9D31AD70CC4E, 0x35BA354A9C7DF448, 0xB5C333457E12844A),
    Bits(0xB51776ADF569A77B, 0xF4F1BE86690B3C34, 0x4929CBE45679D73E, 0xBD696BE010D0D889))

  const D12 := Four(
    Bits(0x12EF8A641EC4F6D6, 0xAA5AC1888E10467E, 0xF8960D6C2FAF5F5E, 0xE813A23C60AF3B82),
    Bits(0xBCED5DE977C9FAF5, 0x217D930AA51787F3, 0xE332538A36B6D246, 0x885BEF040EF6AA0B),
    Bits(0x733CA476C5148639, 0x906A6FF19E573942, 0x75AB709BD3DCBF24, 0xA4939A417BFB78A3),
    Bits(0x97DF596B0610F6FC, 0xF42C16519AD5AFA7, 0xEE7CE1F345947AA4, 0x646CBB7AF6DCE980))

  /** The message as sixteen words. */
  function Message(): (m: seq<Word>)
    ensures |m| == 16
  {
    [Word(0x636261), Word(0), Word(0), Word(0), Word(0), Word(0), Word(0), Word(0),
     Word(0), Word(0), Word(0), Word(0), Word(0), Word(0), Word(0), Word(0)]
  }

  // ---------------------------------------------------------------------------
  // Round by round
  // ---------------------------------------------------------------------------

  lemma MessageWords()
    ensures Message()[0] == Word(0x636261)
    ensures Message()[1] == Word(0)
    ensures Message()[2] == Word(0)
    ensures Message()[3] == Word(0)
    ensures Message()[4] == Word(0)
    ensures Message()[5] == Word(0)
    ensures Message()[6] == Word(0)
    ensures Message()[7] == Word(0)
    ensures Message()[8] == Word(0)
    ensures Message()[9] == Word(0)
    ensures Message()[10] == Word(0)
    ensures Message()[11] == Word(0)
    ensures Message()[12] == Word(0)
    ensures Message()[13] == Word(0)
    ensures Message()[14] == Word(0)
    ensures Message()[15] == Word(0)
  {
  }

  lemma Round1()
    ensures Diagonals(Columns(D0, X0), X0) == D1
  {
    assert MixBits(Bits(0x6A09E667F2BDC948, 0x510E527FADE682D1, 0x6A09E667F3BCC908, 0x510E527FADE682D2),
                   0x636261, 0) ==
           Bits(0xF0C9AA0F86491DEA, 0xB7DEFC3D0277E11F, 0xEE5E0F39647A9FFF, 0x7772FC2886A76C5F);
    assert MixBits(Bits(0xBB67AE8584CAA73B, 0x9B05688C2B3E6C1F, 0xBB67AE8584CAA73B, 0x9B05688C2B3E6C1F),
                   0, 0) ==
           Bits(0x63B7DEDF4A4E5AD3, 0xED49C30CD311D50E, 0x7BEE264BF3CDADFE, 0x254EF880A19A8726);
    assert MixBits(Bits(0x3C6EF372FE94F82B, 0x1F83D9ABFB41BD6B, 0x3C6EF372FE94F82B, 0xE07C265404BE4294),
                   0, 0) ==
           Bits(0xBE50EB454E0A93D7, 0xA056671704B00D71, 0xB2752DADD66BD8F9, 0x789D43381C47F584);
    assert MixBits(Bits(0xA54FF53A5F1D36F1, 0x5BE0CD19137E2179, 0xA54FF53A5F1D36F1, 0x5BE0CD19137E2179),
                   0, 0) ==
           Bits(0x949804B0483EAD14, 0x75E6432FC4661B06, 0xA99463CB37905929, 0xA25EF57D7DA312EE);
    assert MixBits(Bits(0xF0C9AA0F86491DEA, 0xED49C30CD311D50E, 0xB2752DADD66BD8F9, 0xA25EF57D7DA312EE),
                   0, 0) ==
           Bits(0x86B7C1568029BB79, 0xA447C850AA694A7E, 0xFA87B01273FA6DBE, 0x2318A24E2140FC64);
    assert MixBits(Bits(0x63B7DEDF4A4E5AD3, 0xA056671704B00D71, 0xA99463CB37905929, 0x7772FC2886A76C5F),
                   0, 0) ==
           Bits(0xC12CBCC809FF59F3, 0xDE080F1BB1C0F84B, 0x521A715C63E08D8A, 0xE02D0975B8D37A83);
    assert MixBits(Bits(0xBE50EB454E0A93D7, 0x75E6432FC4661B06, 0xEE5E0F39647A9FFF, 0x254EF880A19A8726),
                   0, 0) ==
           Bits(0xC6A5214CC0EACA8E, 0x595CB8A9A1ACA66C, 0xBEC3AE837EAC4887, 0x1C7B754F08B7D193);
    assert MixBits(Bits(0x949804B0483EAD14, 0xB7DEFC3D0277E11F, 0x7BEE264BF3CDADFE, 0x789D43381C47F584),
                   0, 0) ==
           Bits(0x0C87CD524C14CC5D, 0x44EE6039BD86A9F7, 0x6267FC79DF9D6AD1, 0x8F885A76B6E578FE);
    hide MixBits;
  }

  lemma Round2()
    ensures Diagonals(Columns(D1, X1), X1) == D2
  {
    assert MixBits(Bits(0x86B7C1568029BB79, 0x44EE6039BD86A9F7, 0xBEC3AE837EAC4887, 0xE02D0975B8D37A83),
                   0, 0) ==
           Bits(0x7D7EBC91065EB487, 0xA2A2BB290A6FA0AC, 0xE089C6944D999F41, 0x9C62F81DA3622DD5);
    assert MixBits(Bits(0xC12CBCC809FF59F3, 0xA447C850AA694A7E, 0x6267FC79DF9D6AD1, 0x1C7B754F08B7D193),
                   0, 0) ==
           Bits(0x2985DBD3B522B163, 0x48DAA2180CCA574F, 0x607C07B706DF2755, 0x4134955AAE31CC2D);
    assert MixBits(Bits(0xC6A5214CC0EACA8E, 0xDE080F1BB1C0F84B, 0xFA87B01273FA6DBE, 0x8F885A76B6E578FE),
                   0, 0) ==
           Bits(0x83DCC7C95110E507, 0x25804D5986D6E07F, 0x4DEFB1CC1D0E5211, 0x8F1947927DEE7A35);
    assert MixBits(Bits(0x0C87CD524C14CC5D, 0x595CB8A9A1ACA66C, 0x521A715C63E08D8A, 0x2318A24E2140FC64),
                   0, 0) ==
           Bits(0xD5F7D943AE7A12D4, 0x47DC958F84E67B9C, 0x53FD198002CB9DC5, 0x3561197657EEE886);
    assert MixBits(Bits(0x7D7EBC91065EB487, 0x48DAA2180CCA574F, 0x4DEFB1CC1D0E5211, 0x3561197657EEE886),
                   0, 0) ==
           Bits(0x53281E83806010F2, 0xCA5425AEC65A10A8, 0xE9E4AD0D0E1A0D48, 0x572D17EFFDD37358);
    assert MixBits(Bits(0x2985DBD3B522B163, 0x25804D5986D6E07F, 0x53FD198002CB9DC5, 0x9C62F81DA3622DD5),
                   0x636261, 0) ==
           Bits(0x3594B403F81B4393, 0xC6A22E2FF0F7AA48, 0x85DF9DC143C59A74, 0x92A3AAAA6D952B7F);
    assert MixBits(Bits(0x83DCC7C95110E507, 0x47DC958F84E67B9C, 0xE089C6944D999F41, 0x4134955AAE31CC2D),
                   0, 0) ==
           Bits(0x8CD63C7462DE0DFF, 0xC6A56A51CB89C595, 0x224E6A3369224F96, 0xC5FDF71090FAE853);
    assert MixBits(Bits(0xD5F7D943AE7A12D4, 0xA2A2BB290A6FA0AC, 0x607C07B706DF2755, 0x8F1947927DEE7A35),
                   0, 0) ==
           Bits(0x85F693F3DA53F974, 0xBAABDBB2F386D9AE, 0x500E125E58A92923, 0x2A8A40F15A462DD0);
    hide MixBits;
  }

  lemma Round3()
    ensures Diagonals(Columns(D2, X2), X2) == D3
  {
    assert MixBits(Bits(0x53281E83806010F2, 0xBAABDBB2F386D9AE, 0x224E6A3369224F96, 0x92A3AAAA6D952B7F),
                   0, 0) ==
           Bits(0x224D9730DDDE8C9B, 0x1161E9566CEC8636, 0x1CC968515F81E2E0, 0xDC073C3E56EF42AE);
    assert MixBits(Bits(0x3594B403F81B4393, 0xCA5425AEC65A10A8, 0x500E125E58A92923, 0xC5FDF71090FAE853),
                   0, 0x636261) ==
           Bits(0xE430476788C41EF0, 0x956FE864884AC584, 0xAEF099868DCE0A96, 0x3052CABFFB0FB2D1);
    assert MixBits(Bits(0x8CD63C7462DE0DFF, 0xC6A22E2FF0F7AA48, 0xE9E4AD0D0E1A0D48, 0x2A8A40F15A462DD0),
                   0, 0) ==
           Bits(0x4F163FDA2E4243BF, 0x4DFEB83FD06A086B, 0x5D62892A32598F4D, 0x69EA4685AA4D57B0);
    assert MixBits(Bits(0x85F693F3DA53F974, 0xC6A56A51CB89C595, 0x85DF9DC143C59A74, 0x572D17EFFDD37358),
                   0, 0) ==
           Bits(0x41DD8960F0DE029D, 0x78C811FDDF5C5824, 0xC92583E5A4AE6F86, 0xEB3719D34531EB68);
    assert MixBits(Bits(0x224D9730DDDE8C9B, 0x956FE864884AC584, 0x5D62892A32598F4D, 0xEB3719D34531EB68),
                   0, 0) ==
           Bits(0x60ED96AA7AD41725, 0xB1DD230754D7BDEE, 0xF1DE8696BEC11BF1, 0x716343F52FDD265E);
    assert MixBits(Bits(0xE430476788C41EF0, 0x4DFEB83FD06A086B, 0xC92583E5A4AE6F86, 0xDC073C3E56EF42AE),
                   0, 0) ==
           Bits(0xE46A743C71800B9D, 0x25A1422779E06D14, 0xA0EBD586A4A1D2C8, 0xC804EBAB11C99FA9);
    assert MixBits(Bits(0x4F163FDA2E4243BF, 0x78C811FDDF5C5824, 0x1CC968515F81E2E0, 0x3052CABFFB0FB2D1),
                   0, 0) ==
           Bits(0x1A04B543A01F156B, 0xE6823AE4C3FF58A5, 0xA1677E19F37FD5DA, 0x8E0CEC959C715793);
    assert MixBits(Bits(0x41DD8960F0DE029D, 0x1161E9566CEC8636, 0xAEF099868DCE0A96, 0x69EA4685AA4D57B0),
                   0, 0) ==
           Bits(0xA2F8716E775C4877, 0xDA0A61BCDE4267EA, 0x22BDCE6976B08C51, 0x7C45557FAE0D4D89);
    hide MixBits;
  }

  lemma Round4()
    ensures Diagonals(Columns(D3, X3), X3) == D4
  {
    assert MixBits(Bits(0x60ED96AA7AD41725, 0xDA0A61BCDE4267EA, 0xA1677E19F37FD5DA, 0xC804EBAB11C99FA9),
                   0, 0) ==
           Bits(0x6B864497A655FB47, 0xC4B99C558F3684E9, 0xD2D2821A8AA43E4C, 0xE88B2359A43154A6);
    assert MixBits(Bits(0xE46A743C71800B9D, 0xB1DD230754D7BDEE, 0x22BDCE6976B08C51, 0x8E0CEC959C715793),
                   0, 0) ==
           Bits(0xC1FD6110FFA75065, 0x065B83216E96ED93, 0xA898085D8E04F013, 0x2BB39BDBFF08E7EC);
    assert MixBits(Bits(0x1A04B543A01F156B, 0x25A1422779E06D14, 0xF1DE8696BEC11BF1, 0x7C45557FAE0D4D89),
                   0, 0) ==
           Bits(0x817908F78A142CFA, 0xF2D93929736E5B04, 0x38BF8D18C9A387F9, 0x8EEE368BC701C9F4);
    assert MixBits(Bits(0xA2F8716E775C4877, 0xE6823AE4C3FF58A5, 0xA0EBD586A4A1D2C8, 0x716343F52FDD265E),
                   0, 0) ==
           Bits(0xCE1577A72BC1CE7B, 0x2795F81CFB8F7633, 0xD750375D8DA19646, 0x21DDDA93F0E5D3D8);
    assert MixBits(Bits(0x6B864497A655FB47, 0x065B83216E96ED93, 0x38BF8D18C9A387F9, 0x21DDDA93F0E5D3D8),
                   0, 0) ==
           Bits(0xBB2A77D3A8382351, 0x24192E49EBF54EA0, 0x5B44273E66B19D27, 0x3E7B5F234CD1F804);
    assert MixBits(Bits(0xC1FD6110FFA75065, 0xF2D93929736E5B04, 0xD750375D8DA19646, 0xE88B2359A43154A6),
                   0, 0) ==
           Bits(0x45EB47971F23B103, 0x4F82C9401CB32D7A, 0xB6D5C9FCA2579327, 0x086092CFB858437E);
    assert MixBits(Bits(0x817908F78A142CFA, 0x2795F81CFB8F7633, 0xD2D2821A8AA43E4C, 0x2BB39BDBFF08E7EC),
                   0, 0x636261) ==
           Bits(0x98BE297F6E45C684, 0x8CCD013726420DC4, 0xA9C9A8F17B1FC614, 0x5C4BE2156DBEECF9);
    assert MixBits(Bits(0xCE1577A72BC1CE7B, 0xC4B99C558F3684E9, 0xA898085D8E04F013, 0x8EEE368BC701C9F4),
                   0, 0) ==
           Bits(0xA36077DEE3370B89, 0x8A03C4CB7E97590A, 0x55908187977514A0, 0x2EFEDE99ED4EFF16);
    hide MixBits;
  }

  lemma Round5()
    ensures Diagonals(Columns(D4, X4), X4) == D5
  {
    assert MixBits(Bits(0xBB2A77D3A8382351, 0x8A03C4CB7E97590A, 0xA9C9A8F17B1FC614, 0x086092CFB858437E),
                   0, 0x636261) ==
           Bits(0x3E5BAB618A5FBC72, 0x475DCC427F3FCD87, 0x5A8388E35CB33B75, 0x1222A0CC9444C711);
    assert MixBits(Bits(0x45EB47971F23B103, 0x24192E49EBF54EA0, 0x55908187977514A0, 0x5C4BE2156DBEECF9),
                   0, 0) ==
           Bits(0x9BE6AA793AD3A7C9, 0xBB2D4D7552BA222D, 0xEC74922286E7B930, 0x303DFD40B9230C9C);
    assert MixBits(Bits(0x98BE297F6E45C684, 0x4F82C9401CB32D7A, 0x5B44273E66B19D27, 0x2EFEDE99ED4EFF16),
                   0, 0) ==
           Bits(0xC5252A4D03F65B2F, 0xCDCFC26E59D1D349, 0x3A03D6BA54158E95, 0x7709A29326A5C548);
    assert MixBits(Bits(0xA36077DEE3370B89, 0x8CCD013726420DC4, 0xB6D5C9FCA2579327, 0x3E7B5F234CD1F804),
                   0, 0) ==
           Bits(0x1FE21186BD238BE3, 0x8BC33BC025AE3C8E, 0xAA550590A17D6CD1, 0xADD65A4AF0CFB375);
    assert MixBits(Bits(0x3E5BAB618A5FBC72, 0xBB2D4D7552BA222D, 0x3A03D6BA54158E95, 0xADD65A4AF0CFB375),
                   0, 0) ==
           Bits(0xC79C15B3D423B099, 0x6FE66467AF88C0A9, 0x79E02EEF20CDB1AE, 0x1205EA4A7859807D);
    assert MixBits(Bits(0x9BE6AA793AD3A7C9, 0xCDCFC26E59D1D349, 0xAA550590A17D6CD1, 0x1222A0CC9444C711),
                   0, 0) ==
           Bits(0x2DA2224E8DA97556, 0x4EB0B76284C7AAFB, 0x64B3EED7BB602F39, 0xB97D2D439E4DF63D);
    assert MixBits(Bits(0xC5252A4D03F65B2F, 0x8BC33BC025AE3C8E, 0x5A8388E35CB33B75, 0x303DFD40B9230C9C),
                   0, 0) ==
           Bits(0x77D2B26DF1C45C55, 0x299C8E725D954697, 0xB2240B59E6D567D3, 0xC718E755294C9111);
    assert MixBits(Bits(0x1FE21186BD238BE3, 0x475DCC427F3FCD87, 0xEC74922286E7B930, 0x7709A29326A5C548),
                   0, 0) ==
           Bits(0x8934EB09A3456052, 0x0F6D9EEED157DA2A, 0x2643C2370E49EBFD, 0x1F0893F2772BB373);
    hide MixBits;
  }

  lemma Round6()
    ensures Diagonals(Columns(D5, X5), X5) == D6
  {
    assert MixBits(Bits(0xC79C15B3D423B099, 0x0F6D9EEED157DA2A, 0xB2240B59E6D567D3, 0xB97D2D439E4DF63D),
                   0, 0) ==
           Bits(0xF4E55384DC924147, 0xB7B58D9367A4043D, 0xC601582B84C4B49A, 0xD8A6CFD32F7AB2E6);
    assert MixBits(Bits(0x2DA2224E8DA97556, 0x6FE66467AF88C0A9, 0x2643C2370E49EBFD, 0xC718E755294C9111),
                   0, 0) ==
           Bits(0xF015D00B613578C6, 0x02CA058BF3799684, 0x53E84B90DDBF8985, 0x1925E46B74E53BA5);
    assert MixBits(Bits(0x77D2B26DF1C45C55, 0x4EB0B76284C7AAFB, 0x79E02EEF20CDB1AE, 0x1F0893F2772BB373),
                   0x636261, 0) ==
           Bits(0x648495058CAE3D2F, 0xB9668B8EBF3FA717, 0x42B26EF24A2100F5, 0xC70D65404FC75525);
    assert MixBits(Bits(0x8934EB09A3456052, 0x299C8E725D954697, 0x64B3EED7BB602F39, 0x1205EA4A7859807D),
                   0, 0) ==
           Bits(0x54567270AC75C4EA, 0x292F756A3507A223, 0x35134241B118CF10, 0x57DC2CD554E40CA1);
    assert MixBits(Bits(0xF4E55384DC924147, 0x02CA058BF3799684, 0x42B26EF24A2100F5, 0x57DC2CD554E40CA1),
                   0, 0) ==
           Bits(0xE58F97D6385BAEE4, 0x9E472AF0BE3DB3F6, 0xA2C3ABBD37510EE2, 0xDB2161604CBC9828);
    assert MixBits(Bits(0xF015D00B613578C6, 0xB9668B8EBF3FA717, 0x35134241B118CF10, 0xD8A6CFD32F7AB2E6),
                   0, 0) ==
           Bits(0x7640AA9764DA137A, 0x0F244C62DDF71788, 0xCB5668CC2A9F7859, 0x8733794F07AC1500);
    assert MixBits(Bits(0x648495058CAE3D2F, 0x292F756A3507A223, 0xC601582B84C4B49A, 0x1925E46B74E53BA5),
                   0, 0) ==
           Bits(0xDEB4C7C23EFE287E, 0x219828AA83880842, 0x41CCA9073C8C4D0D, 0xC67A6BE42335AA6F);
    assert MixBits(Bits(0x54567270AC75C4EA, 0xB7B58D9367A4043D, 0x53E84B90DDBF8985, 0xC70D65404FC75525),
                   0, 0) ==
           Bits(0x70F6F41C8783C9F6, 0x7127CD48C76A7708, 0x5C7912BC10DF3B4B, 0xACB22B28681E4C82);
    hide MixBits;
  }

  lemma Round7()
    ensures Diagonals(Columns(D6, X6), X6) == D7
  {
    assert MixBits(Bits(0xE58F97D6385BAEE4, 0x7127CD48C76A7708, 0x41CCA9073C8C4D0D, 0x8733794F07AC1500),
                   0, 0) ==
           Bits(0xD0D5BB6A10DAE2B5, 0x860AA9F111072CEA, 0x391B02B399972ABC, 0xFEE428BF8B86C15E);
    assert MixBits(Bits(0x7640AA9764DA137A, 0x9E472AF0BE3DB3F6, 0x5C7912BC10DF3B4B, 0xC67A6BE42335AA6F),
                   0, 0) ==
           Bits(0xF5D2174AFF6CF2CD, 0x90EE681D04CE182A, 0xA93D75CC5E322748, 0x4CA1F5F07A552D91);
    assert MixBits(Bits(0xDEB4C7C23EFE287E, 0x0F244C62DDF71788, 0xA2C3ABBD37510EE2, 0xACB22B28681E4C82),
                   0, 0) ==
           Bits(0x39337B3DA7E963AB, 0x7E1EC202F5042FA8, 0x74550619F0763471, 0x5CA64DD877B9E682);
    assert MixBits(Bits(0x70F6F41C8783C9F6, 0x219828AA83880842, 0xCB5668CC2A9F7859, 0xDB2161604CBC9828),
                   0, 0) ==
           Bits(0x588D5EF9A0A6492F, 0x04D72048395B53FF, 0x4795D2168937DF08, 0x34881F3A14E9E908);
    assert MixBits(Bits(0xD0D5BB6A10DAE2B5, 0x90EE681D04CE182A, 0x74550619F0763471, 0x34881F3A14E9E908),
                   0x636261, 0) ==
           Bits(0x6E2D286EEADEDC81, 0xB63C479A6A769F02, 0x5777272AE1E930C0, 0xE03C6CC89C26BF92);
    assert MixBits(Bits(0xF5D2174AFF6CF2CD, 0x7E1EC202F5042FA8, 0x4795D2168937DF08, 0xFEE428BF8B86C15E),
                   0, 0) ==
           Bits(0xBCF02C0787E86358, 0x258E55E0EC1F362A, 0x5A387849E578DBF6, 0x92AAC307CF2C0AFC);
    assert MixBits(Bits(0x39337B3DA7E963AB, 0x04D72048395B53FF, 0x391B02B399972ABC, 0x4CA1F5F07A552D91),
                   0, 0) ==
           Bits(0x57D56A56DD015EDF, 0x3A3B4EC60E19DFDC, 0x04D769B3FCB048DB, 0x30AACCC4F06DAFAA);
    assert MixBits(Bits(0x588D5EF9A0A6492F, 0x860AA9F111072CEA, 0xA93D75CC5E322748, 0x5CA64DD877B9E682),
                   0, 0) ==
           Bits(0x55D899D40A5D0D0A, 0x819415B56220C459, 0xB78A9A33E9BFF4DD, 0x483893CC094F8863);
    hide MixBits;
  }

  lemma Round8()
    ensures Diagonals(Columns(D7, X7), X7) == D8
  {
    assert MixBits(Bits(0x6E2D286EEADEDC81, 0x819415B56220C459, 0x04D769B3FCB048DB, 0x92AAC307CF2C0AFC),
                   0, 0) ==
           Bits(0x2C42E52D8C060FF2, 0x8FFAC8C5EC5CB0E6, 0x7B7CC36BC928376B, 0xF2D1AF914F0BF16D);
    assert MixBits(Bits(0xBCF02C0787E86358, 0xB63C479A6A769F02, 0xB78A9A33E9BFF4DD, 0x30AACCC4F06DAFAA),
                   0, 0) ==
           Bits(0xA357B3B1736EC0A1, 0x1355530D9510B6DA, 0x3981E9894B87E52A, 0x7FC4A1651E4130E8);
    assert MixBits(Bits(0x57D56A56DD015EDF, 0x258E55E0EC1F362A, 0x5777272AE1E930C0, 0x483893CC094F8863),
                   0, 0) ==
           Bits(0xD916516A31320B04, 0x56AF9E7816ABF9BE, 0x70E55E0E63448924, 0x58FF19794C000469);
    assert MixBits(Bits(0x55D899D40A5D0D0A, 0x3A3B4EC60E19DFDC, 0x5A387849E578DBF6, 0xE03C6CC89C26BF92),
                   0, 0) ==
           Bits(0x41D37D7ECBFC6541, 0x1C460B4A606CC880, 0xBF9C914183B31C1B, 0xE113C5832E0ABBD3);
    assert MixBits(Bits(0x2C42E52D8C060FF2, 0x1355530D9510B6DA, 0x70E55E0E63448924, 0xE113C5832E0ABBD3),
                   0, 0x636261) ==
           Bits(0xFFC83ECE76024D01, 0xE1179523A2541963, 0x30BBCC0285A22F65, 0xB0B9F0D443D1A889);
    assert MixBits(Bits(0xA357B3B1736EC0A1, 0x56AF9E7816ABF9BE, 0xBF9C914183B31C1B, 0xF2D1AF914F0BF16D),
                   0, 0) ==
           Bits(0x1BE7BFFB8C5CC5F9, 0x3A1FAD7106232B8F, 0xBCEFBB6A81539E5D, 0x3841DEF6F4C9848A);
    assert MixBits(Bits(0xD916516A31320B04, 0x1C460B4A606CC880, 0x7B7CC36BC928376B, 0x7FC4A1651E4130E8),
                   0, 0) ==
           Bits(0xA35A18CBAC4C65B7, 0x1C7EDE92AB8B9C46, 0xA3C2D35E4F685C10, 0x98662C85FBA726D4);
    assert MixBits(Bits(0x41D37D7ECBFC6541, 0x8FFAC8C5EC5CB0E6, 0x3981E9894B87E52A, 0x58FF19794C000469),
                   0, 0) ==
           Bits(0xB7C2C7E6D88C285F, 0x81937DA314A50838, 0xA53D3F73AA619624, 0x7762439BD5A851BD);
    hide MixBits;
  }

  lemma Round9()
    ensures Diagonals(Columns(D8, X8), X8) == D9
  {
    assert MixBits(Bits(0xFFC83ECE76024D01, 0x81937DA314A50838, 0xA3C2D35E4F685C10, 0x3841DEF6F4C9848A),
                   0, 0) ==
           Bits(0xA9126C152D800655, 0x4165A65AC9E3C45B, 0x87047C8EC6295331, 0x64D2D77CBDA6949A);
    assert MixBits(Bits(0x1BE7BFFB8C5CC5F9, 0xE1179523A2541963, 0xA53D3F73AA619624, 0x98662C85FBA726D4),
                   0, 0) ==
           Bits(0xAC1632BA715EBF08, 0xDFE2D8CD3101F453, 0x40E7B1FDDA2D2585, 0xC6927901CB3215C7);
    assert MixBits(Bits(0xA35A18CBAC4C65B7, 0x3A1FAD7106232B8F, 0x30BBCC0285A22F65, 0x7762439BD5A851BD),
                   0, 0) ==
           Bits(0x7C1849DF4E91206F, 0x41AA56FE49862D7F, 0x3E4BA8DDB8E29996, 0xA5C81BDF8924E48A);
    assert MixBits(Bits(0xB7C2C7E6D88C285F, 0x1C7EDE92AB8B9C46, 0xBCEFBB6A81539E5D, 0xB0B9F0D443D1A889),
                   0x636261, 0) ==
           Bits(0x94AAF312690F9253, 0x13E3A2C50CFAD099, 0x49989DFA62E90301, 0xC4FE53007C9D0DF7);
    assert MixBits(Bits(0xA9126C152D800655, 0xDFE2D8CD3101F453, 0x3E4BA8DDB8E29996, 0xC4FE53007C9D0DF7),
                   0, 0) ==
           Bits(0x753A70A1E8FAEADD, 0x63C5B9B80D294CB9, 0x5DA7F7638CEC5669, 0xFD3F572687FEA4F1);
    assert MixBits(Bits(0xAC1632BA715EBF08, 0x41AA56FE49862D7F, 0x49989DFA62E90301, 0x64D2D77CBDA6949A),
                   0, 0) ==
           Bits(0x6B0D43CA2C25D629, 0x490870ECAD27DEBD, 0xD9C8826727D306FC, 0x88ED6C4F3BD7A537);
    assert MixBits(Bits(0x7C1849DF4E91206F, 0x13E3A2C50CFAD099, 0x87047C8EC6295331, 0xC6927901CB3215C7),
                   0, 0) ==
           Bits(0xF8343BA8B94F8C0B, 0xB2A90DDF667287FE, 0x316CC9EBEEFAD8FC, 0x19AE688DDF67F026);
    assert MixBits(Bits(0x94AAF312690F9253, 0x4165A65AC9E3C45B, 0x40E7B1FDDA2D2585, 0xA5C81BDF8924E48A),
                   0, 0) ==
           Bits(0xBC7D062B0DB5CF35, 0x58540EE1B1AEBC47, 0x4A466BCD021526A4, 0x4D8707AAB40F7E6D);
    hide MixBits;
  }

  lemma Round10()
    ensures Diagonals(Columns(D9, X9), X9) == D10
  {
    assert MixBits(Bits(0x753A70A1E8FAEADD, 0x58540EE1B1AEBC47, 0x316CC9EBEEFAD8FC, 0x88ED6C4F3BD7A537),
                   0, 0) ==
           Bits(0xC0DF0F0E596EC5A9, 0xB4014455FF7C2CA0, 0xA9502DA0417B08D5, 0xD66561A10D1D1C0D);
    assert MixBits(Bits(0x6B0D43CA2C25D629, 0x63C5B9B80D294CB9, 0x4A466BCD021526A4, 0x19AE688DDF67F026),
                   0, 0) ==
           Bits(0x87CA07D5E3D64CB6, 0x65BF544E084BB313, 0x0A28A074AEA2F05D, 0xD9B961E2D51134AA);
    assert MixBits(Bits(0xF8343BA8B94F8C0B, 0x490870ECAD27DEBD, 0x5DA7F7638CEC5669, 0x4D8707AAB40F7E6D),
                   0, 0) ==
           Bits(0xD11BC20E8EF44EFC, 0x3478342AB05ECF87, 0x15E30F6C705383F7, 0xE5C30363D6AB824F);
    assert MixBits(Bits(0xBC7D062B0DB5CF35, 0xB2A90DDF667287FE, 0xD9C8826727D306FC, 0xFD3F572687FEA4F1),
                   0, 0) ==
           Bits(0x0DF3EA89AAA44E12, 0x88274463CA98E874, 0xDADE744ED33782E5, 0x0D3EFE25194B38BD);
    assert MixBits(Bits(0xC0DF0F0E596EC5A9, 0x65BF544E084BB313, 0x15E30F6C705383F7, 0x0D3EFE25194B38BD),
                   0, 0) ==
           Bits(0xE630C747CCD59C4F, 0x5F311B88904056EC, 0x900AEE2F233B08E5, 0x01369EC18746E775);
    assert MixBits(Bits(0x87CA07D5E3D64CB6, 0x3478342AB05ECF87, 0xDADE744ED33782E5, 0xD66561A10D1D1C0D),
                   0, 0) ==
           Bits(0xBC713D41127571CA, 0x40BD313009201AAB, 0xA07199D87AD058D8, 0x2C6B25593D717852);
    assert MixBits(Bits(0xD11BC20E8EF44EFC, 0x88274463CA98E874, 0xA9502DA0417B08D5, 0xD9B961E2D51134AA),
                   0, 0) ==
           Bits(0x46DB183025025078, 0x0099D4F82A2A1EAB, 0x6DD4FBC1DE60165D, 0x37E8CA471BEAA5F8);
    assert MixBits(Bits(0x0DF3EA89AAA44E12, 0xB4014455FF7C2CA0, 0x0A28A074AEA2F05D, 0xE5C30363D6AB824F),
                   0, 0x636261) ==
           Bits(0x6727E81260610140, 0x2D04185EAC2A8CBA, 0xB3B0B51DE3C86270, 0x2CFC1BAC10EF4457);
    hide MixBits;
  }

  lemma Round11()
    ensures Diagonals(Columns(D10, X0), X0) == D11
  {
    assert MixBits(Bits(0xE630C747CCD59C4F, 0x2D04185EAC2A8CBA, 0x6DD4FBC1DE60165D, 0x2C6B25593D717852),
                   0x636261, 0) ==
           Bits(0xFDD2C6435D5A301B, 0x2CA29C4D619BAFA1, 0x7CCCA8BA533B7361, 0xCAE4B9C0357B6205);
    assert MixBits(Bits(0xBC713D41127571CA, 0x5F311B88904056EC, 0xB3B0B51DE3C86270, 0x37E8CA471BEAA5F8),
                   0, 0) ==
           Bits(0x6E446AFBC3EFAD36, 0xFCD5D76A6DE20047, 0xACC8F98717C8E4A3, 0x3FB8D71B07B5EFA5);
    assert MixBits(Bits(0x46DB183025025078, 0x40BD313009201AAB, 0x900AEE2F233B08E5, 0x2CFC1BAC10EF4457),
                   0, 0) ==
           Bits(0x46D963EE934EFEEA, 0x8B7F1E6CFC2A0039, 0x7AFE95B81B3993DB, 0xAC2678144C9A382A);
    assert MixBits(Bits(0x6727E81260610140, 0x0099D4F82A2A1EAB, 0xA07199D87AD058D8, 0x01369EC18746E775),
                   0, 0) ==
           Bits(0x5523C5B930D1AEB6, 0xADBDC7977150B805, 0x3BBCEB651EEED2C9, 0x8D7D58EE3D275626);
    assert MixBits(Bits(0xFDD2C6435D5A301B, 0xFCD5D76A6DE20047, 0x7AFE95B81B3993DB, 0x8D7D58EE3D275626),
                   0, 0) ==
           Bits(0xE801F73B9768C760, 0x3CC88735D1475E4B, 0x733D1A17248F39DB, 0x02231E1A917FE0BD);
    assert MixBits(Bits(0x6E446AFBC3EFAD36, 0x8B7F1E6CFC2A0039, 0x3BBCEB651EEED2C9, 0xCAE4B9C0357B6205),
                   0, 0) ==
           Bits(0x35C6D22320BE511D, 0x5DAC67921FF76949, 0x92D57B736F5F170A, 0x61B5C0A41D491399);
    assert MixBits(Bits(0x46D963EE934EFEEA, 0xADBDC7977150B805, 0x7CCCA8BA533B7361, 0x3FB8D71B07B5EFA5),
                   0, 0) ==
           Bits(0x306F27584F65495E, 0x1CDB9D31AD70CC4E, 0x35BA354A9C7DF448, 0xB5C333457E12844A);
    assert MixBits(Bits(0x5523C5B930D1AEB6, 0x2CA29C4D619BAFA1, 0xACC8F98717C8E4A3, 0xAC2678144C9A382A),
                   0, 0) ==
           Bits(0xB51776ADF569A77B, 0xF4F1BE86690B3C34, 0x4929CBE45679D73E, 0xBD696BE010D0D889);
    hide MixBits;
  }

  lemma Round12()
    ensures Diagonals(Columns(D11, X1), X1) == D12
  {
    assert MixBits(Bits(0xE801F73B9768C760, 0xF4F1BE86690B3C34, 0x35BA354A9C7DF448, 0x61B5C0A41D491399),
                   0, 0) ==
           Bits(0xAC495068076FE1C4, 0x5198D8D539A3FBCE, 0xE799F6CC9A2A23D7, 0x94A2B1744065BA29);
    assert MixBits(Bits(0x35C6D22320BE511D, 0x3CC88735D1475E4B, 0x4929CBE45679D73E, 0xB5C333457E12844A),
                   0, 0) ==
           Bits(0xF3AE6A427A75E234, 0xB8EACC53AEAD98B1, 0x5D6A76C05F26FE94, 0x88297FB94160BD39);
    assert MixBits(Bits(0x306F27584F65495E, 0x5DAC67921FF76949, 0x733D1A17248F39DB, 0xBD696BE010D0D889),
                   0, 0) ==
           Bits(0x83933B99D54089EE, 0x55B2599798B3A4A1, 0x5FAE8064A9BA0517, 0x6CE4FC1F51B7E632);
    assert MixBits(Bits(0xB51776ADF569A77B, 0x1CDB9D31AD70CC4E, 0x92D57B736F5F170A, 0x02231E1A917FE0BD),
                   0, 0) ==
           Bits(0x31DB95BA436E4DB7, 0xB20B2179D2DCD8C6, 0x06ED116649FDB58D, 0x4072027E06CE90BE);
    assert MixBits(Bits(0xAC495068076FE1C4, 0xB8EACC53AEAD98B1, 0x5FAE8064A9BA0517, 0x4072027E06CE90BE),
                   0, 0) ==
           Bits(0x12EF8A641EC4F6D6, 0xAA5AC1888E10467E, 0xF8960D6C2FAF5F5E, 0xE813A23C60AF3B82);
    assert MixBits(Bits(0xF3AE6A427A75E234, 0x55B2599798B3A4A1, 0x06ED116649FDB58D, 0x94A2B1744065BA29),
                   0x636261, 0) ==
           Bits(0xBCED5DE977C9FAF5, 0x217D930AA51787F3, 0xE332538A36B6D246, 0x885BEF040EF6AA0B);
    assert MixBits(Bits(0x83933B99D54089EE, 0xB20B2179D2DCD8C6, 0xE799F6CC9A2A23D7, 0x88297FB94160BD39),
                   0, 0) ==
           Bits(0x733CA476C5148639, 0x906A6FF19E573942, 0x75AB709BD3DCBF24, 0xA4939A417BFB78A3);
    assert MixBits(Bits(0x31DB95BA436E4DB7, 0x5198D8D539A3FBCE, 0x5D6A76C05F26FE94, 0x6CE4FC1F51B7E632),
                   0, 0) ==
           Bits(0x97DF596B0610F6FC, 0xF42C16519AD5AFA7, 0xEE7CE1F345947AA4, 0x646CBB7AF6DCE980);
    hide MixBits;
  }

  lemma Schedule0()
    ensures Picks(Message(), SIGMA[0], X0)
  {
    SchedulesAreSound(0);
    MessageWords();
    hide IsSchedule, Message;
  }

  lemma Schedule1()
    ensures Picks(Message(), SIGMA[1], X1)
  {
    SchedulesAreSound(1);
    MessageWords();
    hide IsSchedule, Message;
  }

  lemma Schedule2()
    ensures Picks(Message(), SIGMA[2], X2)
  {
    SchedulesAreSound(2);
    MessageWords();
    hide IsSchedule, Message;
  }

  lemma Schedule3()
    ensures Picks(Message(), SIGMA[3], X3)
  {
    SchedulesAreSound(3);
    MessageWords();
    hide IsSchedule, Message;
  }

  lemma Schedule4()
    ensures Picks(Message(), SIGMA[4], X4)
  {
    SchedulesAreSound(4);
    MessageWords();
    hide IsSchedule, Message;
  }

  lemma Schedule5()
    ensures Picks(Message(), SIGMA[5], X5)
  {
    SchedulesAreSound(5);
    MessageWords();
    hide IsSchedule, Message;
  }

  lemma Schedule6()
    ensures Picks(Message(), SIGMA[6], X6)
  {
    SchedulesAreSound(6);
    MessageWords();
    hide IsSchedule, Message;
  }

  lemma Schedule7()
    ensures Picks(Message(), SIGMA[7], X7)
  {
    SchedulesAreSound(7);
    MessageWords();
    hide IsSchedule, Message;
  }

  lemma Schedule8()
    ensures Picks(Message(), SIGMA[8], X8)
  {
    SchedulesAreSound(8);
    MessageWords();
    hide IsSchedule, Message;
  }

  lemma Schedule9()
    ensures Picks(Message(), SIGMA[9], X9)
  {
    SchedulesAreSound(9);
    MessageWords();
    hide IsSchedule, Message;
  }

  lemma FirstVector()
    ensures 3 < TWO128 && WorkVector(InitialState(64), 3, true) == FromDiagonals(D0)
  {
  }

  /** The 64-byte digest, as eight little-endian words. */
  const ANSWER: seq<Word> := [
    Word(0x0D4D1C983FA580BA), Word(0xE9F6129FB697276A), Word(0xB7C45A68142F214C), Word(0xD1A2FFDB6FBB124B),
    Word(0x2D79AB2A39C5877D), Word(0x95CC3345DED552C2), Word(0x5A92F1DBA88AD318), Word(0x239900D4ED8623B9)]

  lemma LastFold()
    ensures Folded(InitialState(64), FromDiagonals(D12)) == ANSWER
  {
  }

  lemma AbcBlock()
    ensures BlockCount(3) == 1 && BlockWords(Padded([0x61, 0x62, 0x63]), 0) == Message()
  {
    var msg: seq<Octet> := [0x61, 0x62, 0x63];
    var p := Padded(msg);
    assert |p| == 128;
    FirstWordOf(p[0..8]);
    forall w | 1 <= w < 16
      ensures LittleEndian(p[8 * w..8 * w + 8]) == Word(0)
    {
      ZeroBytes(p[8 * w..8 * w + 8]);
    }
    assert forall w :: 0 <= w < 16 ==> BlockWords(p, 0)[w] == LittleEndian(p[0 + 8 * w..0 + 8 * w + 8]);
  }

  lemma {:induction false} ZeroBytes(bs: seq<Octet>)
    requires forall i :: 0 <= i < |bs| ==> bs[i] == 0
    ensures LittleEndian(bs) == Word(0)
  {
    if bs != [] {
      ZeroBytes(bs[1..]);
    }
  }

  lemma FirstWordOf(bs: seq<Octet>)
    requires |bs| == 8 && bs[0] == 0x61 && bs[1] == 0x62 && bs[2] == 0x63 && forall i :: 3 <= i < 8 ==> bs[i] == 0
    ensures LittleEndian(bs) == Word(0x636261)
  {
    ZeroBytes(bs[3..]);
    assert bs[1..][1..] == bs[2..] && bs[2..][1..] == bs[3..];
    assert LittleEndian(bs[2..]) == Join(0x63, Word(0));
    assert LittleEndian(bs[1..]) == Join(0x62, Join(0x63, Word(0)));
    assert LittleEndian(bs) == Join(0x61, Join(0x62, Join(0x63, Word(0))));
    hide LittleEndian;
  }

  /** BLAKE2b-512("abc") is the digest of RFC 7693, appendix A. */
  lemma KnownAnswer()
    ensures FinalState([0x61, 0x62, 0x63], 64) == ANSWER
  {
    hide *;
    AbcBlock();
    OneBlock([0x61, 0x62, 0x63], 12);
    FirstVector();
    var v := WorkVector(InitialState(64), 3, true);
    NoRounds(v, Message());
    Schedule0();
    Round1();
    RoundStep(0, D0, X0, D1, v, Message());
    Schedule1();
    Round2();
    RoundStep(1, D1, X1, D2, v, Message());
    Schedule2();
    Round3();
    RoundStep(2, D2, X2, D3, v, Message());
    Schedule3();
    Round4();
    RoundStep(3, D3, X3, D4, v, Message());
    Schedule4();
    Round5();
    RoundStep(4, D4, X4, D5, v, Message());
    Schedule5();
    Round6();
    RoundStep(5, D5, X5, D6, v, Message());
    Schedule6();
    Round7();
    RoundStep(6, D6, X6, D7, v, Message());
    Schedule7();
    Round8();
    RoundStep(7, D7, X7, D8, v, Message());
    Schedule8();
    Round9();
    RoundStep(8, D8, X8, D9, v, Message());
    Schedule9();
    Round10();
    RoundStep(9, D9, X9, D10, v, Message());
    Schedule0();
    Round11();
    RoundStep(10, D10, X0, D11, v, Message());
    Schedule1();
    Round12();
    RoundStep(11, D11, X1, D12, v, Message());
    LastFold();
  }
}
