/** BLAKE2b-512 of the bytes 0 to 127, one full block, as in the known-answer tests of BLAKE2's
    authors. All sixteen words of the block differ, so it fixes every entry of the schedules. */
module Blake2bFullBlock {
  import opened Blake2b
  import opened Blake2bRounds

  // ---------------------------------------------------------------------------
  // The states between rounds, as diagonals, and the scheduled words
  // ---------------------------------------------------------------------------

  const D0 := Four(
    Bits(0x6A09E667F2BDC948, 0x9B05688C2B3E6C1F, 0x3C6EF372FE94F82B, 0x5BE0CD19137E2179),
    Bits(0xBB67AE8584CAA73B, 0x1F83D9ABFB41BD6B, 0xA54FF53A5F1D36F1, 0x510E527FADE68251),
    Bits(0x3C6EF372FE94F82B, 0x5BE0CD19137E2179, 0x6A09E667F3BCC908, 0x9B05688C2B3E6C1F),
    Bits(0xA54FF53A5F1D36F1, 0x510E527FADE682D1, 0xBB67AE8584CAA73B, 0xE07C265404BE4294))

  const X0 := Scheduled(
    0x0706050403020100, 0x0F0E0D0C0B0A0908, 0x1716151413121110, 0x1F1E1D1C1B1A1918, 0x2726252423222120,
    0x2F2E2D2C2B2A2928, 0x3736353433323130, 0x3F3E3D3C3B3A3938, 0x4746454443424140, 0x4F4E4D4C4B4A4948,
    0x5756555453525150, 0x5F5E5D5C5B5A5958, 0x6766656463626160, 0x6F6E6D6C6B6A6968, 0x7776757473727170,
    0x7F7E7D7C7B7A7978)

  const D1 := Four(
    Bits(0x87EE2C12DC562AC5, 0xE5A86D979F4273D4, 0x8D872828F3945FF4, 0x77635110F0911827),
    Bits(0xE0EF8DE36D08CF56, 0xA21C4881EEBDABE2, 0x716BCABAB3B61390, 0x7C7C7B4242F646FB),
    Bits(0x97C8855D0FAAEAFC, 0x5AE5C0BB4957DDBE, 0x636A9D55D7B54898, 0x6318AAE6CF452590),
    Bits(0xA859CE50AAB48074, 0xA93BF237E8FEAB7E, 0xDFA71C8F35B77475, 0x99B519B03687DD7B))

  const X1 := Scheduled(
    0x7776757473727170, 0x5756555453525150, 0x2726252423222120, 0x4746454443424140, 0x4F4E4D4C4B4A4948,
    0x7F7E7D7C7B7A7978, 0x6F6E6D6C6B6A6968, 0x3736353433323130, 0x0F0E0D0C0B0A0908, 0x6766656463626160,
    0x0706050403020100, 0x1716151413121110, 0x5F5E5D5C5B5A5958, 0x3F3E3D3C3B3A3938, 0x2F2E2D2C2B2A2928,
    0x1F1E1D1C1B1A1918)

  const D2 := Four(
    Bits(0x0CB6B74C99372042, 0xD064149FA7BEEB22, 0x53DC172FA8885753, 0xC623115E67B19887),
    Bits(0x9EC3DD149AB55A94, 0xED04099B0B35BB5B, 0x6D616B04E9313831, 0x140351F446A6DBC5),
    Bits(0xC8A393DF5C3A5B22, 0x1472344DAD7D57BF, 0x4D2C668267D74F1F, 0x366546D2F9B0B7E9),
    Bits(0xF0F1FFAB90FCA84A, 0x502F19D714A82802, 0x74120C4F37718AF8, 0x06EE73467A4E8621))

  const X2 := Scheduled(
    0x5F5E5D5C5B5A5958, 0x4746454443424140, 0x6766656463626160, 0x0706050403020100, 0x2F2E2D2C2B2A2928,
    0x1716151413121110, 0x7F7E7D7C7B7A7978, 0x6F6E6D6C6B6A6968, 0x5756555453525150, 0x7776757473727170,
    0x1F1E1D1C1B1A1918, 0x3736353433323130, 0x3F3E3D3C3B3A3938, 0x0F0E0D0C0B0A0908, 0x4F4E4D4C4B4A4948,
    0x2726252423222120)

  const D3 := Four(
    Bits(0x363B88C9E5C34597, 0x28B529566C856DE5, 0x616790560D5FC2FC, 0x166BE24F50C6A50F),
    Bits(0x9F3444934666700E, 0xAE9256B5096820B6, 0x2D33108211BFF04B, 0x56669ED4836E3971),
    Bits(0xDEED88D524DF660C, 0x372F64AA54F6D097, 0x77D5D275E5F49DE5, 0xE1CEB84BCB8AAE5D),
    Bits(0x3EA223D521A0A4AF, 0x644B464B7D490145, 0xA36582305C84B7F1, 0x7C76D3F4D7571E4D))

  const X3 := Scheduled(
    0x3F3E3D3C3B3A3938, 0x4F4E4D4C4B4A4948, 0x1F1E1D1C1B1A1918, 0x0F0E0D0C0B0A0908, 0x6F6E6D6C6B6A6968,
    0x6766656463626160, 0x5F5E5D5C5B5A5958, 0x7776757473727170, 0x1716151413121110, 0x3736353433323130,
    0x2F2E2D2C2B2A2928, 0x5756555453525150, 0x2726252423222120, 0x0706050403020100, 0x7F7E7D7C7B7A7978,
    0x4746454443424140)

  const D4 := Four(
    Bits(0x5A63308EEE7A9248, 0xF41328480C08F319, 0x720A50A06D123D16, 0x6464C22965C88B48),
    Bits(0xF7169B44896AD6CC, 0x6A87A4083D4F73CE, 0xD28311D0EDC99C02, 0xB3BB8557D42EF574),
    Bits(0xB50779263E3A64BE, 0xC45EE32EA583E314, 0xBD2D18C3DCCE06EE, 0xD56033EB08B713A9),
    Bits(0xD6008EBFBE33097C, 0x8E077F9EFB54F7A8, 0x2EC8D16833F1C982, 0x69DBEE8BC2FD5FD1))

  const X4 := Scheduled(
    0x4F4E4D4C4B4A4948, 0x0706050403020100, 0x2F2E2D2C2B2A2928, 0x3F3E3D3C3B3A3938, 0x1716151413121110,
    0x2726252423222120, 0x5756555453525150, 0x7F7E7D7C7B7A7978, 0x7776757473727170, 0x0F0E0D0C0B0A0908,
    0x5F5E5D5C5B5A5958, 0x6766656463626160, 0x3736353433323130, 0x4746454443424140, 0x1F1E1D1C1B1A1918,
    0x6F6E6D6C6B6A6968)

  const D5 := Four(
    Bits(0x75D1C3A6F493737E, 0xAD5C19DD2CF856B8, 0x415234177690E754, 0x566875C584B6B141),
    Bits(0x10EB6B299486F774, 0x8049B723C3C551A8, 0x25B53AD7A5E34984, 0xF67A6E0BC0B2CD8B),
    Bits(0x4CA3D1E1AD47DBF8, 0x7FCC31309CDCD184, 0x002725122C0C7582, 0x27D45253BFDCDADC),
    Bits(0xC094E252C36665C4, 0x7AC88D2E8E59AB29, 0x90DFAC1F87A06690, 0x9FCA888D5C14CC68))

  const X5 := Scheduled(
    0x1716151413121110, 0x6766656463626160, 0x3736353433323130, 0x5756555453525150, 0x0706050403020100,
    0x5F5E5D5C5B5A5958, 0x4746454443424140, 0x1F1E1D1C1B1A1918, 0x2726252423222120, 0x6F6E6D6C6B6A6968,
    0x3F3E3D3C3B3A3938, 0x2F2E2D2C2B2A2928, 0x7F7E7D7C7B7A7978, 0x7776757473727170, 0x0F0E0D0C0B0A0908,
    0x4F4E4D4C4B4A4948)

  const D6 := Four(
    Bits(0x2AC6A92BB9C11D37, 0x907346EF6E3F05EF, 0xFCD7D201025CD242, 0xE520020AF82B3121),
    Bits(0xF506E6594244C601, 0xF027286F0334110B, 0x3B139A80B52B63ED, 0xC778ED2E9009B9D4),
    Bits(0x7F765F49A6053C33, 0x8EC217A5D9F77E20, 0x9BA9AE774A3FE5AC, 0xCD9D0038A4AB2B79),
    Bits(0x908DA1DA9F98BB42, 0x8E0C63439FF0EEED, 0x5E92E125D5CB844C, 0x575D14116428BD4F))

  const X6 := Scheduled(
    0x6766656463626160, 0x2F2E2D2C2B2A2928, 0x0F0E0D0C0B0A0908, 0x7F7E7D7C7B7A7978, 0x7776757473727170,
    0x6F6E6D6C6B6A6968, 0x2726252423222120, 0x5756555453525150, 0x0706050403020100, 0x3F3E3D3C3B3A3938,
    0x3736353433323130, 0x1F1E1D1C1B1A1918, 0x4F4E4D4C4B4A4948, 0x1716151413121110, 0x4746454443424140,
    0x5F5E5D5C5B5A5958)

  const D7 := Four(
    Bits(0xF1D4799D6685F26A, 0xB1D70D59EC49A768, 0x588A99FE3E9204C5, 0x9FF717E9641F254D),
    Bits(0x134DA394EFD37C4F, 0xD3D84A1A99D9FB99, 0xC4D33A5885C45F4F, 0xF6A22FCB30419784),
    Bits(0xA63BB6CF3DEECC23, 0x9EB959C19B867D73, 0xB5DC75E2B8CA7FFC, 0xE87FE3D697BA8596),
    Bits(0xCE47F62598A42FB0, 0xABA591A1E0D6038E, 0x72433209A46FADBB, 0x3CF0C4FC69A48308))

  const X7 := Scheduled(
    0x6F6E6D6C6B6A6968, 0x5F5E5D5C5B5A5958, 0x3F3E3D3C3B3A3938, 0x7776757473727170, 0x6766656463626160,
    0x0F0E0D0C0B0A0908, 0x1F1E1D1C1B1A1918, 0x4F4E4D4C4B4A4948, 0x2F2E2D2C2B2A2928, 0x0706050403020100,
    0x7F7E7D7C7B7A7978, 0x2726252423222120, 0x4746454443424140, 0x3736353433323130, 0x1716151413121110,
    0x5756555453525150)

  const D8 := Four(
    Bits(0x4E8212337C087683, 0x877F962B401F7394, 0x6D2434B9E3A09E94, 0x564E9C1D7F2D0087),
    Bits(0x2CEE433B83459545, 0xE5A0397B442DE915, 0xB0ADFE138A159CCD, 0x03B074B17D7F0864),
    Bits(0x5F661019EC052D63, 0xEC810AFEC7757B88, 0x58D2B5975D51279A, 0x4485CC1AED01B0BE),
    Bits(0xCCD46756018FB046, 0x51FBEC755804B265, 0x7CE18C0569E30325, 0xC0EDEF4FB64039F5))

  const X8 := Scheduled(
    0x3736353433323130, 0x7F7E7D7C7B7A7978, 0x7776757473727170, 0x4F4E4D4C4B4A4948, 0x5F5E5D5C5B5A5958,
    0x1F1E1D1C1B1A1918, 0x0706050403020100, 0x4746454443424140, 0x6766656463626160, 0x1716151413121110,
    0x6F6E6D6C6B6A6968, 0x3F3E3D3C3B3A3938, 0x0F0E0D0C0B0A0908, 0x2726252423222120, 0x5756555453525150,
    0x2F2E2D2C2B2A2928)

  const D9 := Four(
    Bits(0x55706DF4F6D2C8D7, 0xAD0230647C622820, 0x8DB8A46B5CE63D9E, 0x81EFAEFC1DB26F42),
    Bits(0xE66C32920624DB6A, 0xF795864952FE502C, 0x43D0373684027346, 0x09793DA1CBEA1AA2),
    Bits(0xFEE85647C19E99CB, 0xD97FAC464674EF84, 0x6C8535B0368E8001, 0xD8A4B3DFF02C0FF2),
    Bits(0x12154AB3FC7EFB15, 0x80848F6C55F5928D, 0x364DB88FFD890650, 0x1F11B68DD4B675E3))

  const X9 := Scheduled(
    0x5756555453525150, 0x1716151413121110, 0x4746454443424140, 0x2726252423222120, 0x3F3E3D3C3B3A3938,
    0x3736353433323130, 0x0F0E0D0C0B0A0908, 0x2F2E2D2C2B2A2928, 0x7F7E7D7C7B7A7978, 0x5F5E5D5C5B5A5958,
    0x4F4E4D4C4B4A4948, 0x7776757473727170, 0x1F1E1D1C1B1A1918, 0x6766656463626160, 0x6F6E6D6C6B6A6968,
    0x0706050403020100)

  const D10 := Four(
    Bits(0xE03F56CE20AC9B8E, 0x6FA0FC5C5466660E, 0x4BCFB7EF52721E5B, 0x81B3C4B2E0F8F215),
    Bits(0x8569C5CE0B8060F6, 0xF67DE03356CD4000, 0x4A64702EA64F6318, 0xA2FBB9B96903DFDF),
    Bits(0x3EA6040C7DDF4664, 0xA0B8FE64144E581D, 0xEAC2DCE5D4939780, 0x75B5AD763575F3F7),
    Bits(0xD6DCDA83481AD8C3, 0x0E4E985E09112B90, 0x5505EB1A3862F3A2, 0xB747C9DE8EF149DA))

  const D11 := Four(
    Bits(0x97A32C6EFCD82059, 0xB4C914C5001DA029, 0x03ABF69457776C0F, 0x4291FAC32234ABFD),
    Bits(0x0A03839F325818A6, 0x8BB6178BC441AEDC, 0x826D06D08AD74DC4, 0xAB47E9BE98655776),
    Bits(0xDB578D0D2D3E4B18, 0x117EDD498FF4A84D, 0x6A90DFFE0A4252C7, 0xAB9ADDE2EFAA4DDE),
    Bits(0xE33F974A8A83062F, 0x0EF3F03DA3A3E102, 0xD0D788539DDB9D35, 0xE887815CF67B883B))

  const D12 := Four(
    Bits(0xF6D9360FE5E06AAE, 0x35D54D904A443B60, 0xB4F321D9B008DF34, 0x78D046FCA04BF528),
    Bits(0x37F993B386C67F4D, 0x588E73D2E6E1352B, 0xF76F273DA2FA1ABC, 0x0F9FFC039FDB72D5),
    Bits(0xBA62CB94EEE374B9, 0x36E128E87F68B8D1, 0x463297F46FBEBAC5, 0xCFCAF4C1A5CA4E70),
    Bits(0x5C5E99D1420B52A5, 0x5AAA9DD00BC93F88, 0x2D5C83577D8C26D3, 0x7EADBA76E361C2A2))

  /** The message as sixteen words. */
  function Message(): (m: seq<Word>)
    ensures |m| == 16
  {
    [Word(0x0706050403020100), Word(0x0F0E0D0C0B0A0908), Word(0x1716151413121110), Word(0x1F1E1D1C1B1A1918),
     Word(0x2726252423222120), Word(0x2F2E2D2C2B2A2928), Word(0x3736353433323130), Word(0x3F3E3D3C3B3A3938),
     Word(0x4746454443424140), Word(0x4F4E4D4C4B4A4948), Word(0x5756555453525150), Word(0x5F5E5D5C5B5A5958),
     Word(0x6766656463626160), Word(0x6F6E6D6C6B6A6968), Word(0x7776757473727170), Word(0x7F7E7D7C7B7A7978)]
  }

  // ---------------------------------------------------------------------------
  // Round by round
  // ---------------------------------------------------------------------------

  lemma MessageWords()
    ensures Message()[0] == Word(0x0706050403020100)
    ensures Message()[1] == Word(0x0F0E0D0C0B0A0908)
    ensures Message()[2] == Word(0x1716151413121110)
    ensures Message()[3] == Word(0x1F1E1D1C1B1A1918)
    ensures Message()[4] == Word(0x2726252423222120)
    ensures Message()[5] == Word(0x2F2E2D2C2B2A2928)
    ensures Message()[6] == Word(0x3736353433323130)
    ensures Message()[7] == Word(0x3F3E3D3C3B3A3938)
    ensures Message()[8] == Word(0x4746454443424140)
    ensures Message()[9] == Word(0x4F4E4D4C4B4A4948)
    ensures Message()[10] == Word(0x5756555453525150)
    ensures Message()[11] == Word(0x5F5E5D5C5B5A5958)
    ensures Message()[12] == Word(0x6766656463626160)
    ensures Message()[13] == Word(0x6F6E6D6C6B6A6968)
    ensures Message()[14] == Word(0x7776757473727170)
    ensures Message()[15] == Word(0x7F7E7D7C7B7A7978)
  {
  }

  lemma Round1()
    ensures Diagonals(Columns(D0, X0), X0) == D1
  {
    assert MixBits(Bits(0x6A09E667F2BDC948, 0x510E527FADE682D1, 0x6A09E667F3BCC908, 0x510E527FADE68251),
                   0x0706050403020100, 0x0F0E0D0C0B0A0908) ==
           Bits(0xFCE69820F398254C, 0xD133CAFF35A4AC1F, 0xC323A856DE359924, 0x4AD8F2A657686088);
    assert MixBits(Bits(0xBB67AE8584CAA73B, 0x9B05688C2B3E6C1F, 0xBB67AE8584CAA73B, 0x9B05688C2B3E6C1F),
                   0x1716151413121110, 0x1F1E1D1C1B1A1918) ==
           Bits(0xFB29447A67D3B4D2, 0xF51FE27E1DFC14D3, 0x94080A0787607D39, 0xF07B130C0C0F9155);
    assert MixBits(Bits(0x3C6EF372FE94F82B, 0x1F83D9ABFB41BD6B, 0x3C6EF372FE94F82B, 0xE07C265404BE4294),
                   0x2726252423222120, 0x2F2E2D2C2B2A2928) ==
           Bits(0x6AB848BA7E813E78, 0x0EABA7BE119FA97B, 0x3F24FA943E91EA27, 0xEA6F72FEDC981DE5);
    assert MixBits(Bits(0xA54FF53A5F1D36F1, 0x5BE0CD19137E2179, 0xA54FF53A5F1D36F1, 0x5BE0CD19137E2179),
                   0x3736353433323130, 0x3F3E3D3C3B3A3938) ==
           Bits(0x54F62ACBC45AC7A3, 0x0822ECC94F3E3B75, 0x5941806344CC196B, 0xFD3DE2458228A7DC);
    assert MixBits(Bits(0xFCE69820F398254C, 0xF51FE27E1DFC14D3, 0x3F24FA943E91EA27, 0xFD3DE2458228A7DC),
                   0x4746454443424140, 0x4F4E4D4C4B4A4948) ==
           Bits(0x87EE2C12DC562AC5, 0xE5A86D979F4273D4, 0x8D872828F3945FF4, 0x77635110F0911827);
    assert MixBits(Bits(0xFB29447A67D3B4D2, 0x0EABA7BE119FA97B, 0x5941806344CC196B, 0x4AD8F2A657686088),
                   0x5756555453525150, 0x5F5E5D5C5B5A5958) ==
           Bits(0xE0EF8DE36D08CF56, 0xA21C4881EEBDABE2, 0x716BCABAB3B61390, 0x7C7C7B4242F646FB);
    assert MixBits(Bits(0x6AB848BA7E813E78, 0x0822ECC94F3E3B75, 0xC323A856DE359924, 0xF07B130C0C0F9155),
                   0x6766656463626160, 0x6F6E6D6C6B6A6968) ==
           Bits(0x97C8855D0FAAEAFC, 0x5AE5C0BB4957DDBE, 0x636A9D55D7B54898, 0x6318AAE6CF452590);
    assert MixBits(Bits(0x54F62ACBC45AC7A3, 0xD133CAFF35A4AC1F, 0x94080A0787607D39, 0xEA6F72FEDC981DE5),
                   0x7776757473727170, 0x7F7E7D7C7B7A7978) ==
           Bits(0xA859CE50AAB48074, 0xA93BF237E8FEAB7E, 0xDFA71C8F35B77475, 0x99B519B03687DD7B);
    hide MixBits;
  }

  lemma Round2()
    ensures Diagonals(Columns(D1, X1), X1) == D2
  {
    assert MixBits(Bits(0x87EE2C12DC562AC5, 0xA93BF237E8FEAB7E, 0x636A9D55D7B54898, 0x7C7C7B4242F646FB),
                   0x7776757473727170, 0x5756555453525150) ==
           Bits(0x6C91D4882C864247, 0xC99EBC96447F0157, 0x8855B53F825329EF, 0xAABA16A0D5C0F85A);
    assert MixBits(Bits(0xE0EF8DE36D08CF56, 0xE5A86D979F4273D4, 0xDFA71C8F35B77475, 0x6318AAE6CF452590),
                   0x2726252423222120, 0x4746454443424140) ==
           Bits(0x5491A03DD9E3A3E5, 0xEDC252F382ED50D1, 0xE96C1323A6455633, 0x299CB4B9E1E75745);
    assert MixBits(Bits(0x97C8855D0FAAEAFC, 0xA21C4881EEBDABE2, 0x8D872828F3945FF4, 0x99B519B03687DD7B),
                   0x4F4E4D4C4B4A4948, 0x7F7E7D7C7B7A7978) ==
           Bits(0xB07B0656655A6188, 0x9032B2F53E11BF03, 0x6FD034D43F25D86B, 0x6313CF4E3B0B75DC);
    assert MixBits(Bits(0xA859CE50AAB48074, 0x5AE5C0BB4957DDBE, 0x716BCABAB3B61390, 0x77635110F0911827),
                   0x6F6E6D6C6B6A6968, 0x3736353433323130) ==
           Bits(0x7D0178284913C5BA, 0xB276764BAEE1824A, 0x8A267D5E611A0DD5, 0x68D2D2E6A7954CDD);
    assert MixBits(Bits(0x6C91D4882C864247, 0xEDC252F382ED50D1, 0x6FD034D43F25D86B, 0x68D2D2E6A7954CDD),
                   0x0F0E0D0C0B0A0908, 0x6766656463626160) ==
           Bits(0x0CB6B74C99372042, 0xD064149FA7BEEB22, 0x53DC172FA8885753, 0xC623115E67B19887);
    assert MixBits(Bits(0x5491A03DD9E3A3E5, 0x9032B2F53E11BF03, 0x8A267D5E611A0DD5, 0xAABA16A0D5C0F85A),
                   0x0706050403020100, 0x1716151413121110) ==
           Bits(0x9EC3DD149AB55A94, 0xED04099B0B35BB5B, 0x6D616B04E9313831, 0x140351F446A6DBC5);
    assert MixBits(Bits(0xB07B0656655A6188, 0xB276764BAEE1824A, 0x8855B53F825329EF, 0x299CB4B9E1E75745),
                   0x5F5E5D5C5B5A5958, 0x3F3E3D3C3B3A3938) ==
           Bits(0xC8A393DF5C3A5B22, 0x1472344DAD7D57BF, 0x4D2C668267D74F1F, 0x366546D2F9B0B7E9);
    assert MixBits(Bits(0x7D0178284913C5BA, 0xC99EBC96447F0157, 0xE96C1323A6455633, 0x6313CF4E3B0B75DC),
                   0x2F2E2D2C2B2A2928, 0x1F1E1D1C1B1A1918) ==
           Bits(0xF0F1FFAB90FCA84A, 0x502F19D714A82802, 0x74120C4F37718AF8, 0x06EE73467A4E8621);
    hide MixBits;
  }

  lemma Round3()
    ensures Diagonals(Columns(D2, X2), X2) == D3
  {
    assert MixBits(Bits(0x0CB6B74C99372042, 0x502F19D714A82802, 0x4D2C668267D74F1F, 0x140351F446A6DBC5),
                   0x5F5E5D5C5B5A5958, 0x4746454443424140) ==
           Bits(0xBA7105913174EDE0, 0x330C8E0CD63CD985, 0x2F60D6CA8FE767C6, 0x9294F5EE7FC89933);
    assert MixBits(Bits(0x9EC3DD149AB55A94, 0xD064149FA7BEEB22, 0x74120C4F37718AF8, 0x366546D2F9B0B7E9),
                   0x6766656463626160, 0x0706050403020100) ==
           Bits(0xC00C3C1CC4E278D5, 0xB7C0B372B26C20E9, 0x3997B9B9453FC0CB, 0x691F9C6A2CE32409);
    assert MixBits(Bits(0xC8A393DF5C3A5B22, 0xED04099B0B35BB5B, 0x53DC172FA8885753, 0x06EE73467A4E8621),
                   0x2F2E2D2C2B2A2928, 0x1716151413121110) ==
           Bits(0xED96488C5A858036, 0x0E597A4D9E2BCCE1, 0x7686D5F77BCCC9F1, 0x39D60542F108B8BE);
    assert MixBits(Bits(0xF0F1FFAB90FCA84A, 0x1472344DAD7D57BF, 0x6D616B04E9313831, 0xC623115E67B19887),
                   0x7F7E7D7C7B7A7978, 0x6F6E6D6C6B6A6968) ==
           Bits(0x83E10241FAD7296F, 0xB6C895DFB485ADE8, 0xD4EBA9B00F3A9072, 0x89445DA4E347B816);
    assert MixBits(Bits(0xBA7105913174EDE0, 0xB7C0B372B26C20E9, 0x7686D5F77BCCC9F1, 0x89445DA4E347B816),
                   0x5756555453525150, 0x7776757473727170) ==
           Bits(0x363B88C9E5C34597, 0x28B529566C856DE5, 0x616790560D5FC2FC, 0x166BE24F50C6A50F);
    assert MixBits(Bits(0xC00C3C1CC4E278D5, 0x0E597A4D9E2BCCE1, 0xD4EBA9B00F3A9072, 0x9294F5EE7FC89933),
                   0x1F1E1D1C1B1A1918, 0x3736353433323130) ==
           Bits(0x9F3444934666700E, 0xAE9256B5096820B6, 0x2D33108211BFF04B, 0x56669ED4836E3971);
    assert MixBits(Bits(0xED96488C5A858036, 0xB6C895DFB485ADE8, 0x2F60D6CA8FE767C6, 0x691F9C6A2CE32409),
                   0x3F3E3D3C3B3A3938, 0x0F0E0D0C0B0A0908) ==
           Bits(0xDEED88D524DF660C, 0x372F64AA54F6D097, 0x77D5D275E5F49DE5, 0xE1CEB84BCB8AAE5D);
    assert MixBits(Bits(0x83E10241FAD7296F, 0x330C8E0CD63CD985, 0x3997B9B9453FC0CB, 0x39D60542F108B8BE),
                   0x4F4E4D4C4B4A4948, 0x2726252423222120) ==
           Bits(0x3EA223D521A0A4AF, 0x644B464B7D490145, 0xA36582305C84B7F1, 0x7C76D3F4D7571E4D);
    hide MixBits;
  }

  lemma Round4()
    ensures Diagonals(Columns(D3, X3), X3) == D4
  {
    assert MixBits(Bits(0x363B88C9E5C34597, 0x644B464B7D490145, 0x77D5D275E5F49DE5, 0x56669ED4836E3971),
                   0x3F3E3D3C3B3A3938, 0x4F4E4D4C4B4A4948) ==
           Bits(0xFA44898E9F5E5964, 0x63A2B96E269DA2DF, 0x60E07347A6834167, 0xCBE1E76C30EB10FD);
    assert MixBits(Bits(0x9F3444934666700E, 0x28B529566C856DE5, 0xA36582305C84B7F1, 0xE1CEB84BCB8AAE5D),
                   0x1F1E1D1C1B1A1918, 0x0F0E0D0C0B0A0908) ==
           Bits(0xBE9C72921B02D022, 0x89CE98339DC1B20A, 0x8C6196998F12090A, 0xE36CBB132BC41DCB);
    assert MixBits(Bits(0xDEED88D524DF660C, 0xAE9256B5096820B6, 0x616790560D5FC2FC, 0x7C76D3F4D7571E4D),
                   0x6F6E6D6C6B6A6968, 0x6766656463626160) ==
           Bits(0xF495FA79D93C5A0E, 0xCA34E25CFC7D664D, 0x755B3930A216BBA2, 0xC50CBA73141E59A4);
    assert MixBits(Bits(0x3EA223D521A0A4AF, 0x372F64AA54F6D097, 0x2D33108211BFF04B, 0x166BE24F50C6A50F),
                   0x5F5E5D5C5B5A5958, 0x7776757473727170) ==
           Bits(0x41CDA3E98A7CF98F, 0xB342EB2FB0C9F12C, 0xAC863D0E9D7C4117, 0xFE1BC0FAC8784938);
    assert MixBits(Bits(0xFA44898E9F5E5964, 0x89CE98339DC1B20A, 0x755B3930A216BBA2, 0xFE1BC0FAC8784938),
                   0x1716151413121110, 0x3736353433323130) ==
           Bits(0x5A63308EEE7A9248, 0xF41328480C08F319, 0x720A50A06D123D16, 0x6464C22965C88B48);
    assert MixBits(Bits(0xBE9C72921B02D022, 0xCA34E25CFC7D664D, 0xAC863D0E9D7C4117, 0xCBE1E76C30EB10FD),
                   0x2F2E2D2C2B2A2928, 0x5756555453525150) ==
           Bits(0xF7169B44896AD6CC, 0x6A87A4083D4F73CE, 0xD28311D0EDC99C02, 0xB3BB8557D42EF574);
    assert MixBits(Bits(0xF495FA79D93C5A0E, 0xB342EB2FB0C9F12C, 0x60E07347A6834167, 0xE36CBB132BC41DCB),
                   0x2726252423222120, 0x0706050403020100) ==
           Bits(0xB50779263E3A64BE, 0xC45EE32EA583E314, 0xBD2D18C3DCCE06EE, 0xD56033EB08B713A9);
    assert MixBits(Bits(0x41CDA3E98A7CF98F, 0x63A2B96E269DA2DF, 0x8C6196998F12090A, 0xC50CBA73141E59A4),
                   0x7F7E7D7C7B7A7978, 0x4746454443424140) ==
           Bits(0xD6008EBFBE33097C, 0x8E077F9EFB54F7A8, 0x2EC8D16833F1C982, 0x69DBEE8BC2FD5FD1);
    hide MixBits;
  }

  lemma Round5()
    ensures Diagonals(Columns(D4, X4), X4) == D5
  {
    assert MixBits(Bits(0x5A63308EEE7A9248, 0x8E077F9EFB54F7A8, 0xBD2D18C3DCCE06EE, 0xB3BB8557D42EF574),
                   0x4F4E4D4C4B4A4948, 0x0706050403020100) ==
           Bits(0xC447B58E9B5C62D3, 0x79D5AF212FA621C2, 0xB9626480F4939E7A, 0x1AFE257093C21F5F);
    assert MixBits(Bits(0xF7169B44896AD6CC, 0xF41328480C08F319, 0x2EC8D16833F1C982, 0xD56033EB08B713A9),
                   0x2F2E2D2C2B2A2928, 0x3F3E3D3C3B3A3938) ==
           Bits(0x7B15F9F7DC727154, 0x1309529DF9CDCA2B, 0xA8FB654C1C7CA01A, 0xB207B33F19531345);
    assert MixBits(Bits(0xB50779263E3A64BE, 0x6A87A4083D4F73CE, 0x720A50A06D123D16, 0x69DBEE8BC2FD5FD1),
                   0x1716151413121110, 0x2726252423222120) ==
           Bits(0x3C35693BA860F0AD, 0x697ECD2AB555EA18, 0xEAD57741AC0810FD, 0x2C647053DF76F71E);
    assert MixBits(Bits(0xD6008EBFBE33097C, 0xC45EE32EA583E314, 0xD28311D0EDC99C02, 0x6464C22965C88B48),
                   0x5756555453525150, 0x7F7E7D7C7B7A7978) ==
           Bits(0x8A76BE204CAF0E7E, 0x5230B0A32C105B9B, 0xB05A21308C237AEB, 0x0B1558B70888D97E);
    assert MixBits(Bits(0xC447B58E9B5C62D3, 0x1309529DF9CDCA2B, 0xEAD57741AC0810FD, 0x0B1558B70888D97E),
                   0x7776757473727170, 0x0F0E0D0C0B0A0908) ==
           Bits(0x75D1C3A6F493737E, 0xAD5C19DD2CF856B8, 0x415234177690E754, 0x566875C584B6B141);
    assert MixBits(Bits(0x7B15F9F7DC727154, 0x697ECD2AB555EA18, 0xB05A21308C237AEB, 0x1AFE257093C21F5F),
                   0x5F5E5D5C5B5A5958, 0x6766656463626160) ==
           Bits(0x10EB6B299486F774, 0x8049B723C3C551A8, 0x25B53AD7A5E34984, 0xF67A6E0BC0B2CD8B);
    assert MixBits(Bits(0x3C35693BA860F0AD, 0x5230B0A32C105B9B, 0xB9626480F4939E7A, 0xB207B33F19531345),
                   0x3736353433323130, 0x4746454443424140) ==
           Bits(0x4CA3D1E1AD47DBF8, 0x7FCC31309CDCD184, 0x002725122C0C7582, 0x27D45253BFDCDADC);
    assert MixBits(Bits(0x8A76BE204CAF0E7E, 0x79D5AF212FA621C2, 0xA8FB654C1C7CA01A, 0x2C647053DF76F71E),
                   0x1F1E1D1C1B1A1918, 0x6F6E6D6C6B6A6968) ==
           Bits(0xC094E252C36665C4, 0x7AC88D2E8E59AB29, 0x90DFAC1F87A06690, 0x9FCA888D5C14CC68);
    hide MixBits;
  }

  lemma Round6()
    ensures Diagonals(Columns(D5, X5), X5) == D6
  {
    assert MixBits(Bits(0x75D1C3A6F493737E, 0x7AC88D2E8E59AB29, 0x002725122C0C7582, 0xF67A6E0BC0B2CD8B),
                   0x1716151413121110, 0x6766656463626160) ==
           Bits(0xFE41187DB6EBF2AA, 0x832FFEE74B3B522D, 0x4EBDB25C1817C885, 0xF948AB0CFA414721);
    assert MixBits(Bits(0x10EB6B299486F774, 0xAD5C19DD2CF856B8, 0x90DFAC1F87A06690, 0x27D45253BFDCDADC),
                   0x3736353433323130, 0x5756555453525150) ==
           Bits(0xFEEC5100594C4E22, 0x61028CA6BF054F50, 0x829907224ECADADE, 0xA64BB581F4808BE5);
    assert MixBits(Bits(0x4CA3D1E1AD47DBF8, 0x8049B723C3C551A8, 0x415234177690E754, 0x9FCA888D5C14CC68),
                   0x0706050403020100, 0x5F5E5D5C5B5A5958) ==
           Bits(0x400E5C4EF70B83F9, 0xC4AE1C394DE2AA17, 0xEEEB7EF58150A90A, 0x857D6815BE86BB32);
    assert MixBits(Bits(0xC094E252C36665C4, 0x7FCC31309CDCD184, 0x25B53AD7A5E34984, 0x566875C584B6B141),
                   0x4746454443424140, 0x1F1E1D1C1B1A1918) ==
           Bits(0x156C7816E3D5238B, 0x6BAA6A6419487296, 0x5B7237012991A8A0, 0x0E89325FB1DF321A);
    assert MixBits(Bits(0xFE41187DB6EBF2AA, 0x61028CA6BF054F50, 0xEEEB7EF58150A90A, 0x0E89325FB1DF321A),
                   0x2726252423222120, 0x6F6E6D6C6B6A6968) ==
           Bits(0x2AC6A92BB9C11D37, 0x907346EF6E3F05EF, 0xFCD7D201025CD242, 0xE520020AF82B3121);
    assert MixBits(Bits(0xFEEC5100594C4E22, 0xC4AE1C394DE2AA17, 0x5B7237012991A8A0, 0xF948AB0CFA414721),
                   0x3F3E3D3C3B3A3938, 0x2F2E2D2C2B2A2928) ==
           Bits(0xF506E6594244C601, 0xF027286F0334110B, 0x3B139A80B52B63ED, 0xC778ED2E9009B9D4);
    assert MixBits(Bits(0x400E5C4EF70B83F9, 0x6BAA6A6419487296, 0x4EBDB25C1817C885, 0xA64BB581F4808BE5),
                   0x7F7E7D7C7B7A7978, 0x7776757473727170) ==
           Bits(0x7F765F49A6053C33, 0x8EC217A5D9F77E20, 0x9BA9AE774A3FE5AC, 0xCD9D0038A4AB2B79);
    assert MixBits(Bits(0x156C7816E3D5238B, 0x832FFEE74B3B522D, 0x829907224ECADADE, 0x857D6815BE86BB32),
                   0x0F0E0D0C0B0A0908, 0x4F4E4D4C4B4A4948) ==
           Bits(0x908DA1DA9F98BB42, 0x8E0C63439FF0EEED, 0x5E92E125D5CB844C, 0x575D14116428BD4F);
    hide MixBits;
  }

  lemma Round7()
    ensures Diagonals(Columns(D6, X6), X6) == D7
  {
    assert MixBits(Bits(0x2AC6A92BB9C11D37, 0x8E0C63439FF0EEED, 0x9BA9AE774A3FE5AC, 0xC778ED2E9009B9D4),
                   0x6766656463626160, 0x2F2E2D2C2B2A2928) ==
           Bits(0xC0D3E346B420225A, 0xEC0669A146ECBB49, 0x876F70966897D60A, 0xBEA7EDCE37165361);
    assert MixBits(Bits(0xF506E6594244C601, 0x907346EF6E3F05EF, 0x5E92E125D5CB844C, 0xCD9D0038A4AB2B79),
                   0x0F0E0D0C0B0A0908, 0x7F7E7D7C7B7A7978) ==
           Bits(0xF3C20FBF01AE96B0, 0xEA5B34C3AB72BE67, 0x2A96CD8C1F1F1773, 0xACDCECE4F03E58BB);
    assert MixBits(Bits(0x7F765F49A6053C33, 0xF027286F0334110B, 0xFCD7D201025CD242, 0x575D14116428BD4F),
                   0x7776757473727170, 0x6F6E6D6C6B6A6968) ==
           Bits(0xF62CE01F0613B5C7, 0x9BF8222FD6AFF8D4, 0xD256649296AA71DB, 0x5CFB8EAFE3FEB65D);
    assert MixBits(Bits(0x908DA1DA9F98BB42, 0x8EC217A5D9F77E20, 0x3B139A80B52B63ED, 0xE520020AF82B3121),
                   0x2726252423222120, 0x5756555453525150) ==
           Bits(0x140AEF0A5F162D53, 0xCF299B4D64757ABF, 0x91AA76B7DD2B3CDE, 0xF1FD709384A9FC43);
    assert MixBits(Bits(0xC0D3E346B420225A, 0xEA5B34C3AB72BE67, 0xD256649296AA71DB, 0xF1FD709384A9FC43),
                   0x0706050403020100, 0x3F3E3D3C3B3A3938) ==
           Bits(0xF1D4799D6685F26A, 0xB1D70D59EC49A768, 0x588A99FE3E9204C5, 0x9FF717E9641F254D);
    assert MixBits(Bits(0xF3C20FBF01AE96B0, 0x9BF8222FD6AFF8D4, 0x91AA76B7DD2B3CDE, 0xBEA7EDCE37165361),
                   0x3736353433323130, 0x1F1E1D1C1B1A1918) ==
           Bits(0x134DA394EFD37C4F, 0xD3D84A1A99D9FB99, 0xC4D33A5885C45F4F, 0xF6A22FCB30419784);
    assert MixBits(Bits(0xF62CE01F0613B5C7, 0xCF299B4D64757ABF, 0x876F70966897D60A, 0xACDCECE4F03E58BB),
                   0x4F4E4D4C4B4A4948, 0x1716151413121110) ==
           Bits(0xA63BB6CF3DEECC23, 0x9EB959C19B867D73, 0xB5DC75E2B8CA7FFC, 0xE87FE3D697BA8596);
    assert MixBits(Bits(0x140AEF0A5F162D53, 0xEC0669A146ECBB49, 0x2A96CD8C1F1F1773, 0x5CFB8EAFE3FEB65D),
                   0x4746454443424140, 0x5F5E5D5C5B5A5958) ==
           Bits(0xCE47F62598A42FB0, 0xABA591A1E0D6038E, 0x72433209A46FADBB, 0x3CF0C4FC69A48308);
    hide MixBits;
  }

  lemma Round8()
    ensures Diagonals(Columns(D7, X7), X7) == D8
  {
    assert MixBits(Bits(0xF1D4799D6685F26A, 0xABA591A1E0D6038E, 0xB5DC75E2B8CA7FFC, 0xF6A22FCB30419784),
                   0x6F6E6D6C6B6A6968, 0x5F5E5D5C5B5A5958) ==
           Bits(0x2F1BA89BCFD01F0B, 0x84367DEFA476D54A, 0x80CFEC6413940CF6, 0x486BAD9C607F359A);
    assert MixBits(Bits(0x134DA394EFD37C4F, 0xB1D70D59EC49A768, 0x72433209A46FADBB, 0xE87FE3D697BA8596),
                   0x3F3E3D3C3B3A3938, 0x7776757473727170) ==
           Bits(0x40F633E270D0A8DB, 0xBA9637BB3A5D05F2, 0x9857CB9F7B285885, 0xA526C01BEA9B9CCD);
    assert MixBits(Bits(0xA63BB6CF3DEECC23, 0xD3D84A1A99D9FB99, 0x588A99FE3E9204C5, 0x3CF0C4FC69A48308),
                   0x6766656463626160, 0x0F0E0D0C0B0A0908) ==
           Bits(0xB5E561D308433BA9, 0x02D58A0A4BD4E98B, 0x44362B7DE7E47D40, 0x991BE76ACBC7D5C9);
    assert MixBits(Bits(0xCE47F62598A42FB0, 0x9EB959C19B867D73, 0xC4D33A5885C45F4F, 0x9FF717E9641F254D),
                   0x1F1E1D1C1B1A1918, 0x4F4E4D4C4B4A4948) ==
           Bits(0x061504BE30D31E85, 0xFC7202E62E61E4EC, 0x549E4B1D8174FD74, 0x646F2D4EE7C8233B);
    assert MixBits(Bits(0x2F1BA89BCFD01F0B, 0xBA9637BB3A5D05F2, 0x44362B7DE7E47D40, 0x646F2D4EE7C8233B),
                   0x2F2E2D2C2B2A2928, 0x0706050403020100) ==
           Bits(0x4E8212337C087683, 0x877F962B401F7394, 0x6D2434B9E3A09E94, 0x564E9C1D7F2D0087);
    assert MixBits(Bits(0x40F633E270D0A8DB, 0x02D58A0A4BD4E98B, 0x549E4B1D8174FD74, 0x486BAD9C607F359A),
                   0x7F7E7D7C7B7A7978, 0x2726252423222120) ==
           Bits(0x2CEE433B83459545, 0xE5A0397B442DE915, 0xB0ADFE138A159CCD, 0x03B074B17D7F0864);
    assert MixBits(Bits(0xB5E561D308433BA9, 0xFC7202E62E61E4EC, 0x80CFEC6413940CF6, 0xA526C01BEA9B9CCD),
                   0x4746454443424140, 0x3736353433323130) ==
           Bits(0x5F661019EC052D63, 0xEC810AFEC7757B88, 0x58D2B5975D51279A, 0x4485CC1AED01B0BE);
    assert MixBits(Bits(0x061504BE30D31E85, 0x84367DEFA476D54A, 0x9857CB9F7B285885, 0x991BE76ACBC7D5C9),
                   0x1716151413121110, 0x5756555453525150) ==
           Bits(0xCCD46756018FB046, 0x51FBEC755804B265, 0x7CE18C0569E30325, 0xC0EDEF4FB64039F5);
    hide MixBits;
  }

  lemma Round9()
    ensures Diagonals(Columns(D8, X8), X8) == D9
  {
    assert MixBits(Bits(0x4E8212337C087683, 0x51FBEC755804B265, 0x58D2B5975D51279A, 0x03B074B17D7F0864),
                   0x3736353433323130, 0x7F7E7D7C7B7A7978) ==
           Bits(0xA91014DC6B9E34F9, 0x2EEB71CD3E249F92, 0x46A8DB6477F62EA0, 0x7395D35046A0BF9A);
    assert MixBits(Bits(0x2CEE433B83459545, 0x877F962B401F7394, 0x7CE18C0569E30325, 0x4485CC1AED01B0BE),
                   0x7776757473727170, 0x4F4E4D4C4B4A4948) ==
           Bits(0xD7290F0749E29B2A, 0x52AA2246B1E8F7E0, 0x72A363FC9F34AC69, 0x19EB0CFFC5F02683);
    assert MixBits(Bits(0x5F661019EC052D63, 0xE5A0397B442DE915, 0x6D2434B9E3A09E94, 0xC0EDEF4FB64039F5),
                   0x5F5E5D5C5B5A5958, 0x1F1E1D1C1B1A1918) ==
           Bits(0xC7840B5CF85B2CF4, 0x287B84CFE8204250, 0x103C8528A5A38524, 0x654AFA495D799CD2);
    assert MixBits(Bits(0xCCD46756018FB046, 0xEC810AFEC7757B88, 0xB0ADFE138A159CCD, 0x564E9C1D7F2D0087),
                   0x0706050403020100, 0x4746454443424140) ==
           Bits(0x6695572C686A11F5, 0x00F5352785624AEC, 0x5E89001C9B918691, 0xFAB0D5BF7B65FE7F);
    assert MixBits(Bits(0xA91014DC6B9E34F9, 0x52AA2246B1E8F7E0, 0x103C8528A5A38524, 0xFAB0D5BF7B65FE7F),
                   0x6766656463626160, 0x1716151413121110) ==
           Bits(0x55706DF4F6D2C8D7, 0xAD0230647C622820, 0x8DB8A46B5CE63D9E, 0x81EFAEFC1DB26F42);
    assert MixBits(Bits(0xD7290F0749E29B2A, 0x287B84CFE8204250, 0x5E89001C9B918691, 0x7395D35046A0BF9A),
                   0x6F6E6D6C6B6A6968, 0x3F3E3D3C3B3A3938) ==
           Bits(0xE66C32920624DB6A, 0xF795864952FE502C, 0x43D0373684027346, 0x09793DA1CBEA1AA2);
    assert MixBits(Bits(0xC7840B5CF85B2CF4, 0x00F5352785624AEC, 0x46A8DB6477F62EA0, 0x19EB0CFFC5F02683),
                   0x0F0E0D0C0B0A0908, 0x2726252423222120) ==
           Bits(0xFEE85647C19E99CB, 0xD97FAC464674EF84, 0x6C8535B0368E8001, 0xD8A4B3DFF02C0FF2);
    assert MixBits(Bits(0x6695572C686A11F5, 0x2EEB71CD3E249F92, 0x72A363FC9F34AC69, 0x654AFA495D799CD2),
                   0x5756555453525150, 0x2F2E2D2C2B2A2928) ==
           Bits(0x12154AB3FC7EFB15, 0x80848F6C55F5928D, 0x364DB88FFD890650, 0x1F11B68DD4B675E3);
    hide MixBits;
  }

  lemma Round10()
    ensures Diagonals(Columns(D9, X9), X9) == D10
  {
    assert MixBits(Bits(0x55706DF4F6D2C8D7, 0x80848F6C55F5928D, 0x6C8535B0368E8001, 0x09793DA1CBEA1AA2),
                   0x5756555453525150, 0x1716151413121110) ==
           Bits(0x79DF0022A49167D3, 0xA882CB5DC3238B6F, 0xE13CFDF610F56FB8, 0x08C7122FB63480A3);
    assert MixBits(Bits(0xE66C32920624DB6A, 0xAD0230647C622820, 0x364DB88FFD890650, 0xD8A4B3DFF02C0FF2),
                   0x4746454443424140, 0x2726252423222120) ==
           Bits(0xFCE4E3201A1F096D, 0x0B63B2112D05338F, 0x7EBBCCC9A7B13A44, 0x1288C901A818180F);
    assert MixBits(Bits(0xFEE85647C19E99CB, 0xF795864952FE502C, 0x8DB8A46B5CE63D9E, 0x1F11B68DD4B675E3),
                   0x3F3E3D3C3B3A3938, 0x3736353433323130) ==
           Bits(0xDAAF41E00F86D334, 0x90659FB6257AD9B9, 0xA58E3D059EC01209, 0x7C7441CE172C252B);
    assert MixBits(Bits(0x12154AB3FC7EFB15, 0xD97FAC464674EF84, 0x43D0373684027346, 0x81EFAEFC1DB26F42),
                   0x0F0E0D0C0B0A0908, 0x2F2E2D2C2B2A2928) ==
           Bits(0x65C2F57FD9A07C82, 0xA2D39BD411273D2A, 0x6A9809A768EBC12C, 0xD678358D699CA2EC);
    assert MixBits(Bits(0x79DF0022A49167D3, 0x0B63B2112D05338F, 0xA58E3D059EC01209, 0xD678358D699CA2EC),
                   0x7F7E7D7C7B7A7978, 0x5F5E5D5C5B5A5958) ==
           Bits(0xE03F56CE20AC9B8E, 0x6FA0FC5C5466660E, 0x4BCFB7EF52721E5B, 0x81B3C4B2E0F8F215);
    assert MixBits(Bits(0xFCE4E3201A1F096D, 0x90659FB6257AD9B9, 0x6A9809A768EBC12C, 0x08C7122FB63480A3),
                   0x4F4E4D4C4B4A4948, 0x7776757473727170) ==
           Bits(0x8569C5CE0B8060F6, 0xF67DE03356CD4000, 0x4A64702EA64F6318, 0xA2FBB9B96903DFDF);
    assert MixBits(Bits(0xDAAF41E00F86D334, 0xA2D39BD411273D2A, 0xE13CFDF610F56FB8, 0x1288C901A818180F),
                   0x1F1E1D1C1B1A1918, 0x6766656463626160) ==
           Bits(0x3EA6040C7DDF4664, 0xA0B8FE64144E581D, 0xEAC2DCE5D4939780, 0x75B5AD763575F3F7);
    assert MixBits(Bits(0x65C2F57FD9A07C82, 0xA882CB5DC3238B6F, 0x7EBBCCC9A7B13A44, 0x7C7441CE172C252B),
                   0x6F6E6D6C6B6A6968, 0x0706050403020100) ==
           Bits(0xD6DCDA83481AD8C3, 0x0E4E985E09112B90, 0x5505EB1A3862F3A2, 0xB747C9DE8EF149DA);
    hide MixBits;
  }

  lemma Round11()
    ensures Diagonals(Columns(D10, X0), X0) == D11
  {
    assert MixBits(Bits(0xE03F56CE20AC9B8E, 0x0E4E985E09112B90, 0xEAC2DCE5D4939780, 0xA2FBB9B96903DFDF),
                   0x0706050403020100, 0x0F0E0D0C0B0A0908) ==
           Bits(0xEF709A7A6836CA48, 0xA51C0C9B13B7BA8A, 0xB8409F73B9B72467, 0x87C1AACC8DBB3F5E);
    assert MixBits(Bits(0x8569C5CE0B8060F6, 0x6FA0FC5C5466660E, 0x5505EB1A3862F3A2, 0x75B5AD763575F3F7),
                   0x1716151413121110, 0x1F1E1D1C1B1A1918) ==
           Bits(0xC94AD94DC1FD9311, 0x37CE826D2E9B0F6E, 0x85ECA5C5A4A72652, 0xE9598EC7F2AEB868);
    assert MixBits(Bits(0x3EA6040C7DDF4664, 0xF67DE03356CD4000, 0x4BCFB7EF52721E5B, 0xB747C9DE8EF149DA),
                   0x2726252423222120, 0x2F2E2D2C2B2A2928) ==
           Bits(0x3E174EC3953F4E17, 0xC24DEA8B58B64043, 0x53B9ED76DE1D5D4A, 0x8EAA4728A09D7E32);
    assert MixBits(Bits(0xD6DCDA83481AD8C3, 0xA0B8FE64144E581D, 0x4A64702EA64F6318, 0x81B3C4B2E0F8F215),
                   0x3736353433323130, 0x3F3E3D3C3B3A3938) ==
           Bits(0x6F8027713BD3F309, 0xE43BBA1DFB7A2B58, 0xF36801178D43426D, 0x39A000E3B77414AC);
    assert MixBits(Bits(0xEF709A7A6836CA48, 0x37CE826D2E9B0F6E, 0x53B9ED76DE1D5D4A, 0x39A000E3B77414AC),
                   0x4746454443424140, 0x4F4E4D4C4B4A4948) ==
           Bits(0x97A32C6EFCD82059, 0xB4C914C5001DA029, 0x03ABF69457776C0F, 0x4291FAC32234ABFD);
    assert MixBits(Bits(0xC94AD94DC1FD9311, 0xC24DEA8B58B64043, 0xF36801178D43426D, 0x87C1AACC8DBB3F5E),
                   0x5756555453525150, 0x5F5E5D5C5B5A5958) ==
           Bits(0x0A03839F325818A6, 0x8BB6178BC441AEDC, 0x826D06D08AD74DC4, 0xAB47E9BE98655776);
    assert MixBits(Bits(0x3E174EC3953F4E17, 0xE43BBA1DFB7A2B58, 0xB8409F73B9B72467, 0xE9598EC7F2AEB868),
                   0x6766656463626160, 0x6F6E6D6C6B6A6968) ==
           Bits(0xDB578D0D2D3E4B18, 0x117EDD498FF4A84D, 0x6A90DFFE0A4252C7, 0xAB9ADDE2EFAA4DDE);
    assert MixBits(Bits(0x6F8027713BD3F309, 0xA51C0C9B13B7BA8A, 0x85ECA5C5A4A72652, 0x8EAA4728A09D7E32),
                   0x7776757473727170, 0x7F7E7D7C7B7A7978) ==
           Bits(0xE33F974A8A83062F, 0x0EF3F03DA3A3E102, 0xD0D788539DDB9D35, 0xE887815CF67B883B);
    hide MixBits;
  }

  lemma Round12()
    ensures Diagonals(Columns(D11, X1), X1) == D12
  {
    assert MixBits(Bits(0x97A32C6EFCD82059, 0x0EF3F03DA3A3E102, 0x6A90DFFE0A4252C7, 0xAB47E9BE98655776),
                   0x7776757473727170, 0x5756555453525150) ==
           Bits(0xA4934C6E57364A37, 0x11D6A0598D2A6DFC, 0x27C434D42960B0E2, 0x31A82F1869D3E27C);
    assert MixBits(Bits(0x0A03839F325818A6, 0xB4C914C5001DA029, 0xD0D788539DDB9D35, 0xAB9ADDE2EFAA4DDE),
                   0x2726252423222120, 0x4746454443424140) ==
           Bits(0x8B96B90C74E25D1B, 0x2DB7F01F8B12F38B, 0xC8864E3019813829, 0x3D7131AB2D3D3A8A);
    assert MixBits(Bits(0xDB578D0D2D3E4B18, 0x8BB6178BC441AEDC, 0x03ABF69457776C0F, 0xE887815CF67B883B),
                   0x4F4E4D4C4B4A4948, 0x7F7E7D7C7B7A7978) ==
           Bits(0x484C83A7A41ACD26, 0x331EA1BA2A458FF9, 0x8BFD4498FEF4D78E, 0xBD9F82FD48A0FAC6);
    assert MixBits(Bits(0xE33F974A8A83062F, 0x117EDD498FF4A84D, 0x826D06D08AD74DC4, 0x4291FAC32234ABFD),
                   0x6F6E6D6C6B6A6968, 0x3736353433323130) ==
           Bits(0xFC31E16FF633E952, 0xF637A9D464292E56, 0x1BD51ED10F0B3715, 0xF1915BE75D76D08E);
    assert MixBits(Bits(0xA4934C6E57364A37, 0x2DB7F01F8B12F38B, 0x8BFD4498FEF4D78E, 0xF1915BE75D76D08E),
                   0x0F0E0D0C0B0A0908, 0x6766656463626160) ==
           Bits(0xF6D9360FE5E06AAE, 0x35D54D904A443B60, 0xB4F321D9B008DF34, 0x78D046FCA04BF528);
    assert MixBits(Bits(0x8B96B90C74E25D1B, 0x331EA1BA2A458FF9, 0x1BD51ED10F0B3715, 0x31A82F1869D3E27C),
                   0x0706050403020100, 0x1716151413121110) ==
           Bits(0x37F993B386C67F4D, 0x588E73D2E6E1352B, 0xF76F273DA2FA1ABC, 0x0F9FFC039FDB72D5);
    assert MixBits(Bits(0x484C83A7A41ACD26, 0xF637A9D464292E56, 0x27C434D42960B0E2, 0x3D7131AB2D3D3A8A),
                   0x5F5E5D5C5B5A5958, 0x3F3E3D3C3B3A3938) ==
           Bits(0xBA62CB94EEE374B9, 0x36E128E87F68B8D1, 0x463297F46FBEBAC5, 0xCFCAF4C1A5CA4E70);
    assert MixBits(Bits(0xFC31E16FF633E952, 0x11D6A0598D2A6DFC, 0xC8864E3019813829, 0xBD9F82FD48A0FAC6),
                   0x2F2E2D2C2B2A2928, 0x1F1E1D1C1B1A1918) ==
           Bits(0x5C5E99D1420B52A5, 0x5AAA9DD00BC93F88, 0x2D5C83577D8C26D3, 0x7EADBA76E361C2A2);
    hide MixBits;
  }

  lemma Schedule0()
    ensures Picks(Message(), SIGMA[0], X0)
  {
    SchedulesAreSound(0);
    MessageWords();
    hide IsSchedule, Message;
  }

  lemma Schedule1()
    ensures Picks(Message(), SIGMA[1], X1)
  {
    SchedulesAreSound(1);
    MessageWords();
    hide IsSchedule, Message;
  }

  lemma Schedule2()
    ensures Picks(Message(), SIGMA[2], X2)
  {
    SchedulesAreSound(2);
    MessageWords();
    hide IsSchedule, Message;
  }

  lemma Schedule3()
    ensures Picks(Message(), SIGMA[3], X3)
  {
    SchedulesAreSound(3);
    MessageWords();
    hide IsSchedule, Message;
  }

  lemma Schedule4()
    ensures Picks(Message(), SIGMA[4], X4)
  {
    SchedulesAreSound(4);
    MessageWords();
    hide IsSchedule, Message;
  }

  lemma Schedule5()
    ensures Picks(Message(), SIGMA[5], X5)
  {
    SchedulesAreSound(5);
    MessageWords();
    hide IsSchedule, Message;
  }

  lemma Schedule6()
    ensures Picks(Message(), SIGMA[6], X6)
  {
    SchedulesAreSound(6);
    MessageWords();
    hide IsSchedule, Message;
  }

  lemma Schedule7()
    ensures Picks(Message(), SIGMA[7], X7)
  {
    SchedulesAreSound(7);
    MessageWords();
    hide IsSchedule, Message;
  }

  lemma Schedule8()
    ensures Picks(Message(), SIGMA[8], X8)
  {
    SchedulesAreSound(8);
    MessageWords();
    hide IsSchedule, Message;
  }

  lemma Schedule9()
    ensures Picks(Message(), SIGMA[9], X9)
  {
    SchedulesAreSound(9);
    MessageWords();
    hide IsSchedule, Message;
  }

  lemma FirstVector()
    ensures 128 < TWO128 && WorkVector(InitialState(64), 128, true) == FromDiagonals(D0)
  {
  }

  /** The 64-byte digest, as eight little-endian words. */
  const ANSWER: seq<Word> := [
    Word(0xDAE2479C78E31923), Word(0xA1C2BE617F80FEA5), Word(0x32FF193FA07F53A6), Word(0x0E7E4BD6BFEC7EE8),
    Word(0x043B33AC39F4CF8C), Word(0x611AD1DDC4B0190F), Word(0x39A0100FFEC14AE2), Word(0x15D1A30DCC5D6C80)]

  lemma LastFold()
    ensures Folded(InitialState(64), FromDiagonals(D12)) == ANSWER
  {
  }

  function Bytes(): (msg: seq<Octet>)
    ensures |msg| == 128
  {
    seq(128, i requires 0 <= i < 128 => i as Octet)
  }

  lemma NextByte(bs: seq<Octet>, k: nat)
    requires k < |bs|
    ensures LittleEndian(bs[k..]) == Join(bs[k], LittleEndian(bs[k + 1..]))
  {
    assert bs[k..][1..] == bs[k + 1..];
  }

  /** Eight bytes, little-endian. */
  lemma EightBytes(bs: seq<Octet>)
    requires |bs| == 8
    ensures LittleEndian(bs) ==
              Join(bs[0], Join(bs[1], Join(bs[2], Join(bs[3],
                Join(bs[4], Join(bs[5], Join(bs[6], Join(bs[7], Word(0)))))))))
  {
    assert LittleEndian([]) == Word(0);
    hide LittleEndian, Join;
    NextByte(bs, 0);
    NextByte(bs, 1);
    NextByte(bs, 2);
    NextByte(bs, 3);
    NextByte(bs, 4);
    NextByte(bs, 5);
    NextByte(bs, 6);
    NextByte(bs, 7);
    assert bs[0..] == bs && bs[8..] == [];
  }

  lemma Word0()
    ensures LittleEndian(Bytes()[0..8]) == Word(0x0706050403020100)
  {
    assert Bytes()[0..8] == [0, 1, 2, 3, 4, 5, 6, 7];
    hide Bytes;
    EightBytes([0, 1, 2, 3, 4, 5, 6, 7]);
    hide LittleEndian;
  }

  lemma Word1()
    ensures LittleEndian(Bytes()[8..16]) == Word(0x0F0E0D0C0B0A0908)
  {
    assert Bytes()[8..16] == [8, 9, 10, 11, 12, 13, 14, 15];
    hide Bytes;
    EightBytes([8, 9, 10, 11, 12, 13, 14, 15]);
    hide LittleEndian;
  }

  lemma Word2()
    ensures LittleEndian(Bytes()[16..24]) == Word(0x1716151413121110)
  {
    assert Bytes()[16..24] == [16, 17, 18, 19, 20, 21, 22, 23];
    hide Bytes;
    EightBytes([16, 17, 18, 19, 20, 21, 22, 23]);
    hide LittleEndian;
  }

  lemma Word3()
    ensures LittleEndian(Bytes()[24..32]) == Word(0x1F1E1D1C1B1A1918)
  {
    assert Bytes()[24..32] == [24, 25, 26, 27, 28, 29, 30, 31];
    hide Bytes;
    EightBytes([24, 25, 26, 27, 28, 29, 30, 31]);
    hide LittleEndian;
  }

  lemma Word4()
    ensures LittleEndian(Bytes()[32..40]) == Word(0x2726252423222120)
  {
    assert Bytes()[32..40] == [32, 33, 34, 35, 36, 37, 38, 39];
    hide Bytes;
    EightBytes([32, 33, 34, 35, 36, 37, 38, 39]);
    hide LittleEndian;
  }

  lemma Word5()
    ensures LittleEndian(Bytes()[40..48]) == Word(0x2F2E2D2C2B2A2928)
  {
    assert Bytes()[40..48] == [40, 41, 42, 43, 44, 45, 46, 47];
    hide Bytes;
    EightBytes([40, 41, 42, 43, 44, 45, 46, 47]);
    hide LittleEndian;
  }

  lemma Word6()
    ensures LittleEndian(Bytes()[48..56]) == Word(0x3736353433323130)
  {
    assert Bytes()[48..56] == [48, 49, 50, 51, 52, 53, 54, 55];
    hide Bytes;
    EightBytes([48, 49, 50, 51, 52, 53, 54, 55]);
    hide LittleEndian;
  }

  lemma Word7()
    ensures LittleEndian(Bytes()[56..64]) == Word(0x3F3E3D3C3B3A3938)
  {
    assert Bytes()[56..64] == [56, 57, 58, 59, 60, 61, 62, 63];
    hide Bytes;
    EightBytes([56, 57, 58, 59, 60, 61, 62, 63]);
    hide LittleEndian;
  }

  lemma Word8()
    ensures LittleEndian(Bytes()[64..72]) == Word(0x4746454443424140)
  {
    assert Bytes()[64..72] == [64, 65, 66, 67, 68, 69, 70, 71];
    hide Bytes;
    EightBytes([64, 65, 66, 67, 68, 69, 70, 71]);
    hide LittleEndian;
  }

  lemma Word9()
    ensures LittleEndian(Bytes()[72..80]) == Word(0x4F4E4D4C4B4A4948)
  {
    assert Bytes()[72..80] == [72, 73, 74, 75, 76, 77, 78, 79];
    hide Bytes;
    EightBytes([72, 73, 74, 75, 76, 77, 78, 79]);
    hide LittleEndian;
  }

  lemma Word10()
    ensures LittleEndian(Bytes()[80..88]) == Word(0x5756555453525150)
  {
    assert Bytes()[80..88] == [80, 81, 82, 83, 84, 85, 86, 87];
    hide Bytes;
    EightBytes([80, 81, 82, 83, 84, 85, 86, 87]);
    hide LittleEndian;
  }

  lemma Word11()
    ensures LittleEndian(Bytes()[88..96]) == Word(0x5F5E5D5C5B5A5958)
  {
    assert Bytes()[88..96] == [88, 89, 90, 91, 92, 93, 94, 95];
    hide Bytes;
    EightBytes([88, 89, 90, 91, 92, 93, 94, 95]);
    hide LittleEndian;
  }

  lemma Word12()
    ensures LittleEndian(Bytes()[96..104]) == Word(0x6766656463626160)
  {
    assert Bytes()[96..104] == [96, 97, 98, 99, 100, 101, 102, 103];
    hide Bytes;
    EightBytes([96, 97, 98, 99, 100, 101, 102, 103]);
    hide LittleEndian;
  }

  lemma Word13()
    ensures LittleEndian(Bytes()[104..112]) == Word(0x6F6E6D6C6B6A6968)
  {
    assert Bytes()[104..112] == [104, 105, 106, 107, 108, 109, 110, 111];
    hide Bytes;
    EightBytes([104, 105, 106, 107, 108, 109, 110, 111]);
    hide LittleEndian;
  }

  lemma Word14()
    ensures LittleEndian(Bytes()[112..120]) == Word(0x7776757473727170)
  {
    assert Bytes()[112..120] == [112, 113, 114, 115, 116, 117, 118, 119];
    hide Bytes;
    EightBytes([112, 113, 114, 115, 116, 117, 118, 119]);
    hide LittleEndian;
  }

  lemma Word15()
    ensures LittleEndian(Bytes()[120..128]) == Word(0x7F7E7D7C7B7A7978)
  {
    assert Bytes()[120..128] == [120, 121, 122, 123, 124, 125, 126, 127];
    hide Bytes;
    EightBytes([120, 121, 122, 123, 124, 125, 126, 127]);
    hide LittleEndian;
  }

  lemma FullBlock()
    ensures BlockCount(128) == 1 && BlockWords(Padded(Bytes()), 0) == Message()
  {
    NoPadding();
    Word0();
    Word1();
    Word2();
    Word3();
    Word4();
    Word5();
    Word6();
    Word7();
    Word8();
    Word9();
    Word10();
    Word11();
    Word12();
    Word13();
    Word14();
    Word15();
    hide LittleEndian, Bytes, Padded;
  }

  lemma NoPadding()
    ensures BlockCount(128) == 1 && Padded(Bytes()) == Bytes()
  {
    var p := Padded(Bytes());
    assert |p| == 128 && p[..128] == Bytes();
    hide Padded;
  }

  /** The published digest of the full block. */
  lemma KnownAnswer()
    ensures FinalState(Bytes(), 64) == ANSWER
  {
    hide *;
    FullBlock();
    OneBlock(Bytes(), 12);
    FirstVector();
    var v := WorkVector(InitialState(64), 128, true);
    NoRounds(v, Message());
    Schedule0();
    Round1();
    RoundStep(0, D0, X0, D1, v, Message());
    Schedule1();
    Round2();
    RoundStep(1, D1, X1, D2, v, Message());
    Schedule2();
    Round3();
    RoundStep(2, D2, X2, D3, v, Message());
    Schedule3();
    Round4();
    RoundStep(3, D3, X3, D4, v, Message());
    Schedule4();
    Round5();
    RoundStep(4, D4, X4, D5, v, Message());
    Schedule5();
    Round6();
    RoundStep(5, D5, X5, D6, v, Message());
    Schedule6();
    Round7();
    RoundStep(6, D6, X6, D7, v, Message());
    Schedule7();
    Round8();
    RoundStep(7, D7, X7, D8, v, Message());
    Schedule8();
    Round9();
    RoundStep(8, D8, X8, D9, v, Message());
    Schedule9();
    Round10();
    RoundStep(9, D9, X9, D10, v, Message());
    Schedule0();
    Round11();
    RoundStep(10, D10, X0, D11, v, Message());
    Schedule1();
    Round12();
    RoundStep(11, D11, X1, D12, v, Message());
    LastFold();
  }
}
