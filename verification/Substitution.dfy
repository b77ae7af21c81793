/** The byte substitution of the device-registration envelope, and its inverse. */
module Substitution {
  /** The entry of a row of sixteen. */
  function Pick(i: bv8, x0: bv8, x1: bv8, x2: bv8, x3: bv8, x4: bv8, x5: bv8, x6: bv8, x7: bv8,
                x8: bv8, x9: bv8, x10: bv8, x11: bv8, x12: bv8, x13: bv8, x14: bv8, x15: bv8): bv8
  {
    if i < 8 then
      if i < 4 then (if i < 2 then if i < 1 then x0 else x1 else if i < 3 then x2 else x3)
      else (if i < 6 then if i < 5 then x4 else x5 else if i < 7 then x6 else x7)
    else
      if i < 12 then (if i < 10 then if i < 9 then x8 else x9 else if i < 11 then x10 else x11)
      else (if i < 14 then if i < 13 then x12 else x13 else if i < 15 then x14 else x15)
  }

  /** The substitution table. */
  function Sbox0(b: bv8): bv8 {
    if b < 128 then
      if b < 64 then
        if b < 32 then
          if b < 16 then
            Pick(b, 99, 124, 119, 123, 242, 107, 111, 197, 48, 1, 103, 43, 254, 215, 171, 118)
          else
            Pick(b - 16, 202, 130, 201, 125, 250, 89, 71, 240, 173, 212, 162, 175, 156, 164, 114, 192)
        else
          if b < 48 then
            Pick(b - 32, 183, 253, 147, 38, 54, 63, 247, 204, 52, 165, 229, 241, 113, 216, 49, 21)
          else
            Pick(b - 48, 4, 199, 35, 195, 24, 150, 5, 154, 7, 18, 128, 226, 235, 39, 178, 117)
      else
        if b < 96 then
          if b < 80 then
            Pick(b - 64, 9, 131, 44, 26, 27, 110, 90, 160, 82, 59, 214, 179, 41, 227, 47, 132)
          else
            Pick(b - 80, 83, 209, 0, 237, 32, 252, 177, 91, 106, 203, 190, 57, 74, 76, 88, 207)
        else
          if b < 112 then
            Pick(b - 96, 208, 239, 170, 251, 67, 77, 51, 133, 69, 249, 2, 127, 80, 60, 159, 168)
          else
            Pick(b - 112, 81, 163, 64, 143, 146, 157, 56, 245, 188, 182, 218, 33, 16, 255, 243, 210)
    else
      if b < 192 then
        if b < 160 then
          if b < 144 then
            Pick(b - 128, 205, 12, 19, 236, 95, 151, 68, 23, 196, 167, 126, 61, 100, 93, 25, 115)
          else
            Pick(b - 144, 96, 129, 79, 220, 34, 42, 144, 136, 70, 238, 184, 20, 222, 94, 11, 219)
        else
          if b < 176 then
            Pick(b - 160, 224, 50, 58, 10, 73, 6, 36, 92, 194, 211, 172, 98, 145, 149, 228, 121)
          else
            Pick(b - 176, 231, 200, 55, 109, 141, 213, 78, 169, 108, 86, 244, 234, 101, 122, 174, 8)
      else
        if b < 224 then
          if b < 208 then
            Pick(b - 192, 186, 120, 37, 46, 28, 166, 180, 198, 232, 221, 116, 31, 75, 189, 139, 138)
          else
            Pick(b - 208, 112, 62, 181, 102, 72, 3, 246, 14, 97, 53, 87, 185, 134, 193, 29, 158)
        else
          if b < 240 then
            Pick(b - 224, 225, 248, 152, 17, 105, 217, 142, 148, 155, 30, 135, 233, 206, 85, 40, 223)
          else
            Pick(b - 240, 140, 161, 137, 13, 191, 230, 66, 104, 65, 153, 45, 15, 176, 84, 187, 22)
  }

  /** The table that undoes it. */
  function Sbox1(b: bv8): bv8 {
    if b < 128 then
      if b < 64 then
        if b < 32 then
          if b < 16 then
            Pick(b, 82, 9, 106, 213, 48, 54, 165, 56, 191, 64, 163, 158, 129, 243, 215, 251)
          else
            Pick(b - 16, 124, 227, 57, 130, 155, 47, 255, 135, 52, 142, 67, 68, 196, 222, 233, 203)
        else
          if b < 48 then
            Pick(b - 32, 84, 123, 148, 50, 166, 194, 35, 61, 238, 76, 149, 11, 66, 250, 195, 78)
          else
            Pick(b - 48, 8, 46, 161, 102, 40, 217, 36, 178, 118, 91, 162, 73, 109, 139, 209, 37)
      else
        if b < 96 then
          if b < 80 then
            Pick(b - 64, 114, 248, 246, 100, 134, 104, 152, 22, 212, 164, 92, 204, 93, 101, 182, 146)
          else
            Pick(b - 80, 108, 112, 72, 80, 253, 237, 185, 218, 94, 21, 70, 87, 167, 141, 157, 132)
        else
          if b < 112 then
            Pick(b - 96, 144, 216, 171, 0, 140, 188, 211, 10, 247, 228, 88, 5, 184, 179, 69, 6)
          else
            Pick(b - 112, 208, 44, 30, 143, 202, 63, 15, 2, 193, 175, 189, 3, 1, 19, 138, 107)
    else
      if b < 192 then
        if b < 160 then
          if b < 144 then
            Pick(b - 128, 58, 145, 17, 65, 79, 103, 220, 234, 151, 242, 207, 206, 240, 180, 230, 115)
          else
            Pick(b - 144, 150, 172, 116, 34, 231, 173, 53, 133, 226, 249, 55, 232, 28, 117, 223, 110)
        else
          if b < 176 then
            Pick(b - 160, 71, 241, 26, 113, 29, 41, 197, 137, 111, 183, 98, 14, 170, 24, 190, 27)
          else
            Pick(b - 176, 252, 86, 62, 75, 198, 210, 121, 32, 154, 219, 192, 254, 120, 205, 90, 244)
      else
        if b < 224 then
          if b < 208 then
            Pick(b - 192, 31, 221, 168, 51, 136, 7, 199, 49, 177, 18, 16, 89, 39, 128, 236, 95)
          else
            Pick(b - 208, 96, 81, 127, 169, 25, 181, 74, 13, 45, 229, 122, 159, 147, 201, 156, 239)
        else
          if b < 240 then
            Pick(b - 224, 160, 224, 59, 77, 174, 42, 245, 176, 200, 235, 187, 60, 131, 83, 153, 97)
          else
            Pick(b - 240, 23, 43, 4, 126, 186, 119, 214, 38, 225, 105, 20, 99, 85, 33, 12, 125)
  }

  lemma SboxesInvertFrom0(b: bv8)
    requires b < 32
    ensures Sbox1(Sbox0(b)) == b
  {
  }

  lemma SboxesInvertFrom32(b: bv8)
    requires 32 <= b < 64
    ensures Sbox1(Sbox0(b)) == b
  {
  }

  lemma SboxesInvertFrom64(b: bv8)
    requires 64 <= b < 96
    ensures Sbox1(Sbox0(b)) == b
  {
  }

  lemma SboxesInvertFrom96(b: bv8)
    requires 96 <= b < 128
    ensures Sbox1(Sbox0(b)) == b
  {
  }

  lemma SboxesInvertFrom128(b: bv8)
    requires 128 <= b < 160
    ensures Sbox1(Sbox0(b)) == b
  {
  }

  lemma SboxesInvertFrom160(b: bv8)
    requires 160 <= b < 192
    ensures Sbox1(Sbox0(b)) == b
  {
  }

  lemma SboxesInvertFrom192(b: bv8)
    requires 192 <= b < 224
    ensures Sbox1(Sbox0(b)) == b
  {
  }

  lemma SboxesInvertFrom224(b: bv8)
    requires 224 <= b
    ensures Sbox1(Sbox0(b)) == b
  {
  }

  /** The second table undoes the first, so that no two bytes are substituted alike. */
  lemma SboxesInvert(b: bv8)
    ensures Sbox1(Sbox0(b)) == b
  {
    if b < 32 {
      SboxesInvertFrom0(b);
    } else if b < 64 {
      SboxesInvertFrom32(b);
    } else if b < 96 {
      SboxesInvertFrom64(b);
    } else if b < 128 {
      SboxesInvertFrom96(b);
    } else if b < 160 {
      SboxesInvertFrom128(b);
    } else if b < 192 {
      SboxesInvertFrom160(b);
    } else if b < 224 {
      SboxesInvertFrom192(b);
    } else {
      SboxesInvertFrom224(b);
    }
  }
}
