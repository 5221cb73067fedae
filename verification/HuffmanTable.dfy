/** The tree of src/Compression.cxx:24-281 and the certificate that it is well
    formed: the field that holds each node and each symbol. The three tables are
    written as balanced decisions on the index, which keeps every lookup cheap,
    and the certificate is checked against the tree entry by entry. */
module HuffmanTable {
  import opened Huffman

  /** The nodes of the tree. */
  function NodeAt(i: int): Node {
    if i < 128 then
     if i < 64 then
      if i < 32 then
       if i < 16 then
        if i < 8 then
         if i < 4 then
          if i < 2 then
           if i == 0 then Node(1, 2) else Node(3, 4)
          else
           if i == 2 then Node(5, 0) else Node(6, 7)
         else
          if i < 6 then
           if i == 4 then Node(8, 9) else Node(10, 11)
          else
           if i == 6 then Node(12, 13) else Node(-256, 14)
        else
         if i < 12 then
          if i < 10 then
           if i == 8 then Node(15, 16) else Node(17, 18)
          else
           if i == 10 then Node(19, 20) else Node(21, 22)
         else
          if i < 14 then
           if i == 12 then Node(-1, 23) else Node(24, 25)
          else
           if i == 14 then Node(26, 27) else Node(28, 29)
       else
        if i < 24 then
         if i < 20 then
          if i < 18 then
           if i == 16 then Node(30, 31) else Node(32, 33)
          else
           if i == 18 then Node(34, 35) else Node(36, 37)
         else
          if i < 22 then
           if i == 20 then Node(38, 39) else Node(40, -64)
          else
           if i == 22 then Node(41, 42) else Node(43, 44)
        else
         if i < 28 then
          if i < 26 then
           if i == 24 then Node(-6, 45) else Node(46, 47)
          else
           if i == 26 then Node(48, 49) else Node(50, 51)
         else
          if i < 30 then
           if i == 28 then Node(-119, 52) else Node(-32, 53)
          else
           if i == 30 then Node(54, -14) else Node(55, -5)
      else
       if i < 48 then
        if i < 40 then
         if i < 36 then
          if i < 34 then
           if i == 32 then Node(56, 57) else Node(58, 59)
          else
           if i == 34 then Node(60, -2) else Node(61, 62)
         else
          if i < 38 then
           if i == 36 then Node(63, 64) else Node(65, 66)
          else
           if i == 38 then Node(67, 68) else Node(69, 70)
        else
         if i < 44 then
          if i < 42 then
           if i == 40 then Node(71, 72) else Node(-51, 73)
          else
           if i == 42 then Node(74, 75) else Node(76, 77)
         else
          if i < 46 then
           if i == 44 then Node(-101, -111) else Node(-4, -97)
          else
           if i == 46 then Node(78, 79) else Node(-110, 80)
       else
        if i < 56 then
         if i < 52 then
          if i < 50 then
           if i == 48 then Node(81, -116) else Node(82, 83)
          else
           if i == 50 then Node(84, -255) else Node(85, 86)
         else
          if i < 54 then
           if i == 52 then Node(87, 88) else Node(89, 90)
          else
           if i == 54 then Node(-15, -10) else Node(91, 92)
        else
         if i < 60 then
          if i < 58 then
           if i == 56 then Node(-21, 93) else Node(-117, 94)
          else
           if i == 58 then Node(95, 96) else Node(97, 98)
         else
          if i < 62 then
           if i == 60 then Node(99, 100) else Node(-114, 101)
          else
           if i == 62 then Node(-105, 102) else Node(-26, 103)
     else
      if i < 96 then
       if i < 80 then
        if i < 72 then
         if i < 68 then
          if i < 66 then
           if i == 64 then Node(104, 105) else Node(106, 107)
          else
           if i == 66 then Node(108, 109) else Node(110, 111)
         else
          if i < 70 then
           if i == 68 then Node(112, -3) else Node(113, -7)
          else
           if i == 70 then Node(114, -131) else Node(115, -144)
        else
         if i < 76 then
          if i < 74 then
           if i == 72 then Node(116, 117) else Node(-20, 118)
          else
           if i == 74 then Node(119, 120) else Node(121, 122)
         else
          if i < 78 then
           if i == 76 then Node(123, 124) else Node(125, 126)
          else
           if i == 78 then Node(127, 128) else Node(129, -100)
       else
        if i < 88 then
         if i < 84 then
          if i < 82 then
           if i == 80 then Node(130, -8) else Node(131, 132)
          else
           if i == 82 then Node(133, 134) else Node(-120, 135)
         else
          if i < 86 then
           if i == 84 then Node(136, -31) else Node(137, 138)
          else
           if i == 86 then Node(-109, -234) else Node(139, 140)
        else
         if i < 92 then
          if i < 90 then
           if i == 88 then Node(141, 142) else Node(143, 144)
          else
           if i == 90 then Node(-112, 145) else Node(-19, 146)
         else
          if i < 94 then
           if i == 92 then Node(147, 148) else Node(149, -66)
          else
           if i == 94 then Node(150, -145) else Node(-13, -65)
      else
       if i < 112 then
        if i < 104 then
         if i < 100 then
          if i < 98 then
           if i == 96 then Node(151, 152) else Node(153, 154)
          else
           if i == 98 then Node(-30, 155) else Node(156, 157)
         else
          if i < 102 then
           if i == 100 then Node(-99, 158) else Node(159, 160)
          else
           if i == 102 then Node(161, 162) else Node(-23, 163)
        else
         if i < 108 then
          if i < 106 then
           if i == 104 then Node(-29, 164) else Node(-11, 165)
          else
           if i == 106 then Node(166, -115) else Node(167, 168)
         else
          if i < 110 then
           if i == 108 then Node(169, 170) else Node(-16, 171)
          else
           if i == 110 then Node(-34, 172) else Node(173, -132)
       else
        if i < 120 then
         if i < 116 then
          if i < 114 then
           if i == 112 then Node(174, -108) else Node(175, -22)
          else
           if i == 114 then Node(176, -9) else Node(177, -84)
         else
          if i < 118 then
           if i == 116 then Node(-17, -37) else Node(-28, 178)
          else
           if i == 118 then Node(179, 180) else Node(181, 182)
        else
         if i < 124 then
          if i < 122 then
           if i == 120 then Node(183, 184) else Node(185, 186)
          else
           if i == 122 then Node(187, -104) else Node(188, -78)
         else
          if i < 126 then
           if i == 124 then Node(189, -61) else Node(-79, -178)
          else
           if i == 126 then Node(-59, -134) else Node(190, -25)
    else
     if i < 192 then
      if i < 160 then
       if i < 144 then
        if i < 136 then
         if i < 132 then
          if i < 130 then
           if i == 128 then Node(-83, -18) else Node(191, -57)
          else
           if i == 130 then Node(-67, 192) else Node(-98, 193)
         else
          if i < 134 then
           if i == 132 then Node(-12, -68) else Node(194, 195)
          else
           if i == 134 then Node(-55, -128) else Node(-24, -50)
        else
         if i < 140 then
          if i < 138 then
           if i == 136 then Node(-70, 196) else Node(-94, -33)
          else
           if i == 138 then Node(197, -129) else Node(-74, 198)
         else
          if i < 142 then
           if i == 140 then Node(-82, 199) else Node(-56, -87)
          else
           if i == 142 then Node(-44, 200) else Node(-248, 201)
       else
        if i < 152 then
         if i < 148 then
          if i < 146 then
           if i == 144 then Node(-163, -81) else Node(-52, -123)
          else
           if i == 146 then Node(202, -113) else Node(-48, -41)
         else
          if i < 150 then
           if i == 148 then Node(-122, -40) else Node(203, -90)
          else
           if i == 150 then Node(-54, 204) else Node(-86, -192)
        else
         if i < 156 then
          if i < 154 then
           if i == 152 then Node(205, 206) else Node(207, -130)
          else
           if i == 154 then Node(-53, 208) else Node(-133, -45)
         else
          if i < 158 then
           if i == 156 then Node(209, 210) else Node(211, -91)
          else
           if i == 158 then Node(212, 213) else Node(-106, -88)
      else
       if i < 176 then
        if i < 168 then
         if i < 164 then
          if i < 162 then
           if i == 160 then Node(214, 215) else Node(216, 217)
          else
           if i == 162 then Node(218, -49) else Node(219, 220)
         else
          if i < 166 then
           if i == 164 then Node(221, 222) else Node(223, 224)
          else
           if i == 166 then Node(225, 226) else Node(227, -102)
        else
         if i < 172 then
          if i < 170 then
           if i == 168 then Node(-160, 228) else Node(-46, 229)
          else
           if i == 170 then Node(-127, 230) else Node(-103, 231)
         else
          if i < 174 then
           if i == 172 then Node(232, 233) else Node(-60, 234)
          else
           if i == 174 then Node(235, -76) else Node(236, -121)
       else
        if i < 184 then
         if i < 180 then
          if i < 178 then
           if i == 176 then Node(237, -73) else Node(-149, 238)
          else
           if i == 178 then Node(239, -107) else Node(-35, 240)
         else
          if i < 182 then
           if i == 180 then Node(-71, -27) else Node(-69, 241)
          else
           if i == 182 then Node(-89, -77) else Node(-62, -118)
        else
         if i < 188 then
          if i < 186 then
           if i == 184 then Node(-75, -85) else Node(-72, -58)
          else
           if i == 186 then Node(-63, -80) else Node(242, -42)
         else
          if i < 190 then
           if i == 188 then Node(-150, -157) else Node(-139, -236)
          else
           if i == 190 then Node(-126, -243) else Node(-142, -214)
     else
      if i < 224 then
       if i < 208 then
        if i < 200 then
         if i < 196 then
          if i < 194 then
           if i == 192 then Node(-138, -206) else Node(-240, -146)
          else
           if i == 194 then Node(-204, -147) else Node(-152, -201)
         else
          if i < 198 then
           if i == 196 then Node(-227, -207) else Node(-154, -209)
          else
           if i == 198 then Node(-153, -254) else Node(-176, -156)
        else
         if i < 204 then
          if i < 202 then
           if i == 200 then Node(-165, -210) else Node(-172, -185)
          else
           if i == 202 then Node(-195, -170) else Node(-232, -211)
         else
          if i < 206 then
           if i == 204 then Node(-219, -239) else Node(-200, -177)
          else
           if i == 206 then Node(-175, -212) else Node(-244, -143)
       else
        if i < 216 then
         if i < 212 then
          if i < 210 then
           if i == 208 then Node(-246, -171) else Node(-203, -221)
          else
           if i == 210 then Node(-202, -181) else Node(-173, -250)
         else
          if i < 214 then
           if i == 212 then Node(-184, -164) else Node(-193, -218)
          else
           if i == 214 then Node(-199, -220) else Node(-190, -249)
        else
         if i < 220 then
          if i < 218 then
           if i == 216 then Node(-230, -217) else Node(-169, -216)
          else
           if i == 218 then Node(-191, -197) else Node(-47, 243)
         else
          if i < 222 then
           if i == 220 then Node(244, 245) else Node(246, 247)
          else
           if i == 222 then Node(-148, -159) else Node(248, 249)
      else
       if i < 240 then
        if i < 232 then
         if i < 228 then
          if i < 226 then
           if i == 224 then Node(-92, -93) else Node(-96, -225)
          else
           if i == 226 then Node(-151, -95) else Node(250, 251)
         else
          if i < 230 then
           if i == 228 then Node(-241, 252) else Node(-161, -36)
          else
           if i == 230 then Node(253, 254) else Node(-135, -39)
        else
         if i < 236 then
          if i < 234 then
           if i == 232 then Node(-187, -124) else Node(255, -251)
          else
           if i == 234 then Node(-162, -238) else Node(-242, -38)
         else
          if i < 238 then
           if i == 236 then Node(-43, -125) else Node(-215, -253)
          else
           if i == 238 then Node(-140, -208) else Node(-137, -235)
       else
        if i < 248 then
         if i < 244 then
          if i < 242 then
           if i == 240 then Node(-158, -237) else Node(-136, -205)
          else
           if i == 242 then Node(-155, -141) else Node(-228, -229)
         else
          if i < 246 then
           if i == 244 then Node(-213, -168) else Node(-224, -194)
          else
           if i == 246 then Node(-196, -226) else Node(-183, -233)
        else
         if i < 252 then
          if i < 250 then
           if i == 248 then Node(-231, -167) else Node(-174, -189)
          else
           if i == 250 then Node(-252, -166) else Node(-198, -222)
         else
          if i < 254 then
           if i == 252 then Node(-188, -179) else Node(-223, -182)
          else
           if i == 254 then Node(-180, -186) else Node(-245, -247)
  }

  /** The field that holds node i; the root is held by none. */
  function NodeField(i: int): Slot {
    if i < 128 then
     if i < 64 then
      if i < 32 then
       if i < 16 then
        if i < 8 then
         if i < 4 then
          if i < 2 then
           if i == 0 then Slot(0, false) else Slot(0, true)
          else
           if i == 2 then Slot(0, false) else Slot(1, true)
         else
          if i < 6 then
           if i == 4 then Slot(1, false) else Slot(2, true)
          else
           if i == 6 then Slot(3, true) else Slot(3, false)
        else
         if i < 12 then
          if i < 10 then
           if i == 8 then Slot(4, true) else Slot(4, false)
          else
           if i == 10 then Slot(5, true) else Slot(5, false)
         else
          if i < 14 then
           if i == 12 then Slot(6, true) else Slot(6, false)
          else
           if i == 14 then Slot(7, false) else Slot(8, true)
       else
        if i < 24 then
         if i < 20 then
          if i < 18 then
           if i == 16 then Slot(8, false) else Slot(9, true)
          else
           if i == 18 then Slot(9, false) else Slot(10, true)
         else
          if i < 22 then
           if i == 20 then Slot(10, false) else Slot(11, true)
          else
           if i == 22 then Slot(11, false) else Slot(12, false)
        else
         if i < 28 then
          if i < 26 then
           if i == 24 then Slot(13, true) else Slot(13, false)
          else
           if i == 26 then Slot(14, true) else Slot(14, false)
         else
          if i < 30 then
           if i == 28 then Slot(15, true) else Slot(15, false)
          else
           if i == 30 then Slot(16, true) else Slot(16, false)
      else
       if i < 48 then
        if i < 40 then
         if i < 36 then
          if i < 34 then
           if i == 32 then Slot(17, true) else Slot(17, false)
          else
           if i == 34 then Slot(18, true) else Slot(18, false)
         else
          if i < 38 then
           if i == 36 then Slot(19, true) else Slot(19, false)
          else
           if i == 38 then Slot(20, true) else Slot(20, false)
        else
         if i < 44 then
          if i < 42 then
           if i == 40 then Slot(21, true) else Slot(22, true)
          else
           if i == 42 then Slot(22, false) else Slot(23, true)
         else
          if i < 46 then
           if i == 44 then Slot(23, false) else Slot(24, false)
          else
           if i == 46 then Slot(25, true) else Slot(25, false)
       else
        if i < 56 then
         if i < 52 then
          if i < 50 then
           if i == 48 then Slot(26, true) else Slot(26, false)
          else
           if i == 50 then Slot(27, true) else Slot(27, false)
         else
          if i < 54 then
           if i == 52 then Slot(28, false) else Slot(29, false)
          else
           if i == 54 then Slot(30, true) else Slot(31, true)
        else
         if i < 60 then
          if i < 58 then
           if i == 56 then Slot(32, true) else Slot(32, false)
          else
           if i == 58 then Slot(33, true) else Slot(33, false)
         else
          if i < 62 then
           if i == 60 then Slot(34, true) else Slot(35, true)
          else
           if i == 62 then Slot(35, false) else Slot(36, true)
     else
      if i < 96 then
       if i < 80 then
        if i < 72 then
         if i < 68 then
          if i < 66 then
           if i == 64 then Slot(36, false) else Slot(37, true)
          else
           if i == 66 then Slot(37, false) else Slot(38, true)
         else
          if i < 70 then
           if i == 68 then Slot(38, false) else Slot(39, true)
          else
           if i == 70 then Slot(39, false) else Slot(40, true)
        else
         if i < 76 then
          if i < 74 then
           if i == 72 then Slot(40, false) else Slot(41, false)
          else
           if i == 74 then Slot(42, true) else Slot(42, false)
         else
          if i < 78 then
           if i == 76 then Slot(43, true) else Slot(43, false)
          else
           if i == 78 then Slot(46, true) else Slot(46, false)
       else
        if i < 88 then
         if i < 84 then
          if i < 82 then
           if i == 80 then Slot(47, false) else Slot(48, true)
          else
           if i == 82 then Slot(49, true) else Slot(49, false)
         else
          if i < 86 then
           if i == 84 then Slot(50, true) else Slot(51, true)
          else
           if i == 86 then Slot(51, false) else Slot(52, true)
        else
         if i < 92 then
          if i < 90 then
           if i == 88 then Slot(52, false) else Slot(53, true)
          else
           if i == 90 then Slot(53, false) else Slot(55, true)
         else
          if i < 94 then
           if i == 92 then Slot(55, false) else Slot(56, false)
          else
           if i == 94 then Slot(57, false) else Slot(58, true)
      else
       if i < 112 then
        if i < 104 then
         if i < 100 then
          if i < 98 then
           if i == 96 then Slot(58, false) else Slot(59, true)
          else
           if i == 98 then Slot(59, false) else Slot(60, true)
         else
          if i < 102 then
           if i == 100 then Slot(60, false) else Slot(61, false)
          else
           if i == 102 then Slot(62, false) else Slot(63, false)
        else
         if i < 108 then
          if i < 106 then
           if i == 104 then Slot(64, true) else Slot(64, false)
          else
           if i == 106 then Slot(65, true) else Slot(65, false)
         else
          if i < 110 then
           if i == 108 then Slot(66, true) else Slot(66, false)
          else
           if i == 110 then Slot(67, true) else Slot(67, false)
       else
        if i < 120 then
         if i < 116 then
          if i < 114 then
           if i == 112 then Slot(68, true) else Slot(69, true)
          else
           if i == 114 then Slot(70, true) else Slot(71, true)
         else
          if i < 118 then
           if i == 116 then Slot(72, true) else Slot(72, false)
          else
           if i == 118 then Slot(73, false) else Slot(74, true)
        else
         if i < 124 then
          if i < 122 then
           if i == 120 then Slot(74, false) else Slot(75, true)
          else
           if i == 122 then Slot(75, false) else Slot(76, true)
         else
          if i < 126 then
           if i == 124 then Slot(76, false) else Slot(77, true)
          else
           if i == 126 then Slot(77, false) else Slot(78, true)
    else
     if i < 192 then
      if i < 160 then
       if i < 144 then
        if i < 136 then
         if i < 132 then
          if i < 130 then
           if i == 128 then Slot(78, false) else Slot(79, true)
          else
           if i == 130 then Slot(80, true) else Slot(81, true)
         else
          if i < 134 then
           if i == 132 then Slot(81, false) else Slot(82, true)
          else
           if i == 134 then Slot(82, false) else Slot(83, false)
        else
         if i < 140 then
          if i < 138 then
           if i == 136 then Slot(84, true) else Slot(85, true)
          else
           if i == 138 then Slot(85, false) else Slot(87, true)
         else
          if i < 142 then
           if i == 140 then Slot(87, false) else Slot(88, true)
          else
           if i == 142 then Slot(88, false) else Slot(89, true)
       else
        if i < 152 then
         if i < 148 then
          if i < 146 then
           if i == 144 then Slot(89, false) else Slot(90, false)
          else
           if i == 146 then Slot(91, false) else Slot(92, true)
         else
          if i < 150 then
           if i == 148 then Slot(92, false) else Slot(93, true)
          else
           if i == 150 then Slot(94, true) else Slot(96, true)
        else
         if i < 156 then
          if i < 154 then
           if i == 152 then Slot(96, false) else Slot(97, true)
          else
           if i == 154 then Slot(97, false) else Slot(98, false)
         else
          if i < 158 then
           if i == 156 then Slot(99, true) else Slot(99, false)
          else
           if i == 158 then Slot(100, false) else Slot(101, true)
      else
       if i < 176 then
        if i < 168 then
         if i < 164 then
          if i < 162 then
           if i == 160 then Slot(101, false) else Slot(102, true)
          else
           if i == 162 then Slot(102, false) else Slot(103, false)
         else
          if i < 166 then
           if i == 164 then Slot(104, false) else Slot(105, false)
          else
           if i == 166 then Slot(106, true) else Slot(107, true)
        else
         if i < 172 then
          if i < 170 then
           if i == 168 then Slot(107, false) else Slot(108, true)
          else
           if i == 170 then Slot(108, false) else Slot(109, false)
         else
          if i < 174 then
           if i == 172 then Slot(110, false) else Slot(111, true)
          else
           if i == 174 then Slot(112, true) else Slot(113, true)
       else
        if i < 184 then
         if i < 180 then
          if i < 178 then
           if i == 176 then Slot(114, true) else Slot(115, true)
          else
           if i == 178 then Slot(117, false) else Slot(118, true)
         else
          if i < 182 then
           if i == 180 then Slot(118, false) else Slot(119, true)
          else
           if i == 182 then Slot(119, false) else Slot(120, true)
        else
         if i < 188 then
          if i < 186 then
           if i == 184 then Slot(120, false) else Slot(121, true)
          else
           if i == 186 then Slot(121, false) else Slot(122, true)
         else
          if i < 190 then
           if i == 188 then Slot(123, true) else Slot(124, true)
          else
           if i == 190 then Slot(127, true) else Slot(129, true)
     else
      if i < 224 then
       if i < 208 then
        if i < 200 then
         if i < 196 then
          if i < 194 then
           if i == 192 then Slot(130, false) else Slot(131, false)
          else
           if i == 194 then Slot(133, true) else Slot(133, false)
         else
          if i < 198 then
           if i == 196 then Slot(136, false) else Slot(138, true)
          else
           if i == 198 then Slot(139, false) else Slot(140, false)
        else
         if i < 204 then
          if i < 202 then
           if i == 200 then Slot(142, false) else Slot(143, false)
          else
           if i == 202 then Slot(146, true) else Slot(149, true)
         else
          if i < 206 then
           if i == 204 then Slot(150, false) else Slot(152, true)
          else
           if i == 206 then Slot(152, false) else Slot(153, true)
       else
        if i < 216 then
         if i < 212 then
          if i < 210 then
           if i == 208 then Slot(154, false) else Slot(156, true)
          else
           if i == 210 then Slot(156, false) else Slot(157, true)
         else
          if i < 214 then
           if i == 212 then Slot(158, true) else Slot(158, false)
          else
           if i == 214 then Slot(160, true) else Slot(160, false)
        else
         if i < 220 then
          if i < 218 then
           if i == 216 then Slot(161, true) else Slot(161, false)
          else
           if i == 218 then Slot(162, true) else Slot(163, true)
         else
          if i < 222 then
           if i == 220 then Slot(163, false) else Slot(164, true)
          else
           if i == 222 then Slot(164, false) else Slot(165, true)
      else
       if i < 240 then
        if i < 232 then
         if i < 228 then
          if i < 226 then
           if i == 224 then Slot(165, false) else Slot(166, true)
          else
           if i == 226 then Slot(166, false) else Slot(167, true)
         else
          if i < 230 then
           if i == 228 then Slot(168, false) else Slot(169, false)
          else
           if i == 230 then Slot(170, false) else Slot(171, false)
        else
         if i < 236 then
          if i < 234 then
           if i == 232 then Slot(172, true) else Slot(172, false)
          else
           if i == 234 then Slot(173, false) else Slot(174, true)
         else
          if i < 238 then
           if i == 236 then Slot(175, true) else Slot(176, true)
          else
           if i == 238 then Slot(177, false) else Slot(178, true)
       else
        if i < 248 then
         if i < 244 then
          if i < 242 then
           if i == 240 then Slot(179, false) else Slot(181, false)
          else
           if i == 242 then Slot(187, true) else Slot(219, false)
         else
          if i < 246 then
           if i == 244 then Slot(220, true) else Slot(220, false)
          else
           if i == 246 then Slot(221, true) else Slot(221, false)
        else
         if i < 252 then
          if i < 250 then
           if i == 248 then Slot(223, true) else Slot(223, false)
          else
           if i == 250 then Slot(227, true) else Slot(227, false)
         else
          if i < 254 then
           if i == 252 then Slot(228, false) else Slot(230, true)
          else
           if i == 254 then Slot(230, false) else Slot(233, true)
  }

  /** The field that holds symbol i. */
  function LeafField(i: int): Slot {
    if i < 256 then
     if i < 128 then
      if i < 64 then
       if i < 32 then
        if i < 16 then
         if i < 8 then
          if i < 4 then
           if i < 2 then
            if i == 0 then Slot(2, false) else Slot(12, true)
           else
            if i == 2 then Slot(34, false) else Slot(68, false)
          else
           if i < 6 then
            if i == 4 then Slot(45, true) else Slot(31, false)
           else
            if i == 6 then Slot(24, true) else Slot(69, false)
         else
          if i < 12 then
           if i < 10 then
            if i == 8 then Slot(80, false) else Slot(114, false)
           else
            if i == 10 then Slot(54, false) else Slot(105, true)
          else
           if i < 14 then
            if i == 12 then Slot(132, true) else Slot(95, true)
           else
            if i == 14 then Slot(30, false) else Slot(54, true)
        else
         if i < 24 then
          if i < 20 then
           if i < 18 then
            if i == 16 then Slot(109, true) else Slot(116, true)
           else
            if i == 18 then Slot(128, false) else Slot(91, true)
          else
           if i < 22 then
            if i == 20 then Slot(73, true) else Slot(56, true)
           else
            if i == 22 then Slot(113, false) else Slot(103, true)
         else
          if i < 28 then
           if i < 26 then
            if i == 24 then Slot(135, true) else Slot(127, false)
           else
            if i == 26 then Slot(63, true) else Slot(180, false)
          else
           if i < 30 then
            if i == 28 then Slot(117, true) else Slot(104, true)
           else
            if i == 30 then Slot(98, true) else Slot(84, false)
       else
        if i < 48 then
         if i < 40 then
          if i < 36 then
           if i < 34 then
            if i == 32 then Slot(29, true) else Slot(137, false)
           else
            if i == 34 then Slot(110, true) else Slot(179, true)
          else
           if i < 38 then
            if i == 36 then Slot(229, false) else Slot(116, false)
           else
            if i == 38 then Slot(235, false) else Slot(231, false)
         else
          if i < 44 then
           if i < 42 then
            if i == 40 then Slot(148, false) else Slot(147, false)
           else
            if i == 42 then Slot(187, false) else Slot(236, true)
          else
           if i < 46 then
            if i == 44 then Slot(142, true) else Slot(155, false)
           else
            if i == 46 then Slot(169, true) else Slot(219, true)
        else
         if i < 56 then
          if i < 52 then
           if i < 50 then
            if i == 48 then Slot(147, true) else Slot(162, false)
           else
            if i == 50 then Slot(135, false) else Slot(41, true)
          else
           if i < 54 then
            if i == 52 then Slot(145, true) else Slot(154, true)
           else
            if i == 54 then Slot(150, true) else Slot(134, true)
         else
          if i < 60 then
           if i < 58 then
            if i == 56 then Slot(141, true) else Slot(129, false)
           else
            if i == 58 then Slot(185, false) else Slot(126, true)
          else
           if i < 62 then
            if i == 60 then Slot(173, true) else Slot(124, false)
           else
            if i == 62 then Slot(183, true) else Slot(186, true)
      else
       if i < 96 then
        if i < 80 then
         if i < 72 then
          if i < 68 then
           if i < 66 then
            if i == 64 then Slot(21, false) else Slot(95, false)
           else
            if i == 66 then Slot(93, false) else Slot(130, true)
          else
           if i < 70 then
            if i == 68 then Slot(132, false) else Slot(181, true)
           else
            if i == 70 then Slot(136, true) else Slot(180, true)
         else
          if i < 76 then
           if i < 74 then
            if i == 72 then Slot(185, true) else Slot(176, false)
           else
            if i == 74 then Slot(139, true) else Slot(184, true)
          else
           if i < 78 then
            if i == 76 then Slot(174, false) else Slot(182, false)
           else
            if i == 78 then Slot(123, false) else Slot(125, true)
        else
         if i < 88 then
          if i < 84 then
           if i < 82 then
            if i == 80 then Slot(186, false) else Slot(144, false)
           else
            if i == 82 then Slot(140, true) else Slot(128, true)
          else
           if i < 86 then
            if i == 84 then Slot(115, false) else Slot(184, false)
           else
            if i == 86 then Slot(151, true) else Slot(141, false)
         else
          if i < 92 then
           if i < 90 then
            if i == 88 then Slot(159, false) else Slot(182, true)
           else
            if i == 90 then Slot(149, false) else Slot(157, false)
          else
           if i < 94 then
            if i == 92 then Slot(224, true) else Slot(224, false)
           else
            if i == 94 then Slot(137, true) else Slot(226, false)
       else
        if i < 112 then
         if i < 104 then
          if i < 100 then
           if i < 98 then
            if i == 96 then Slot(225, true) else Slot(45, false)
           else
            if i == 98 then Slot(131, true) else Slot(100, true)
          else
           if i < 102 then
            if i == 100 then Slot(79, false) else Slot(44, true)
           else
            if i == 102 then Slot(167, false) else Slot(171, true)
         else
          if i < 108 then
           if i < 106 then
            if i == 104 then Slot(122, false) else Slot(62, true)
           else
            if i == 106 then Slot(159, true) else Slot(178, false)
          else
           if i < 110 then
            if i == 108 then Slot(112, false) else Slot(86, true)
           else
            if i == 110 then Slot(47, true) else Slot(44, false)
        else
         if i < 120 then
          if i < 116 then
           if i < 114 then
            if i == 112 then Slot(90, true) else Slot(146, false)
           else
            if i == 114 then Slot(61, true) else Slot(106, false)
          else
           if i < 118 then
            if i == 116 then Slot(48, false) else Slot(57, true)
           else
            if i == 118 then Slot(183, false) else Slot(28, true)
         else
          if i < 124 then
           if i < 122 then
            if i == 120 then Slot(83, true) else Slot(175, false)
           else
            if i == 122 then Slot(148, true) else Slot(145, false)
          else
           if i < 126 then
            if i == 124 then Slot(232, false) else Slot(236, false)
           else
            if i == 126 then Slot(190, true) else Slot(170, true)
     else
      if i < 192 then
       if i < 160 then
        if i < 144 then
         if i < 136 then
          if i < 132 then
           if i < 130 then
            if i == 128 then Slot(134, false) else Slot(138, false)
           else
            if i == 130 then Slot(153, false) else Slot(70, false)
          else
           if i < 134 then
            if i == 132 then Slot(111, false) else Slot(155, true)
           else
            if i == 134 then Slot(126, false) else Slot(231, true)
         else
          if i < 140 then
           if i < 138 then
            if i == 136 then Slot(241, true) else Slot(239, true)
           else
            if i == 138 then Slot(192, true) else Slot(189, true)
          else
           if i < 142 then
            if i == 140 then Slot(238, true) else Slot(242, false)
           else
            if i == 142 then Slot(191, true) else Slot(207, false)
        else
         if i < 152 then
          if i < 148 then
           if i < 146 then
            if i == 144 then Slot(71, false) else Slot(94, false)
           else
            if i == 146 then Slot(193, false) else Slot(194, false)
          else
           if i < 150 then
            if i == 148 then Slot(222, true) else Slot(177, true)
           else
            if i == 150 then Slot(188, true) else Slot(226, true)
         else
          if i < 156 then
           if i < 154 then
            if i == 152 then Slot(195, true) else Slot(198, true)
           else
            if i == 154 then Slot(197, true) else Slot(242, true)
          else
           if i < 158 then
            if i == 156 then Slot(199, false) else Slot(188, false)
           else
            if i == 158 then Slot(240, true) else Slot(222, false)
       else
        if i < 176 then
         if i < 168 then
          if i < 164 then
           if i < 162 then
            if i == 160 then Slot(168, true) else Slot(229, true)
           else
            if i == 162 then Slot(234, true) else Slot(144, true)
          else
           if i < 166 then
            if i == 164 then Slot(212, false) else Slot(200, true)
           else
            if i == 166 then Slot(250, false) else Slot(248, false)
         else
          if i < 172 then
           if i < 170 then
            if i == 168 then Slot(244, false) else Slot(217, true)
           else
            if i == 170 then Slot(202, false) else Slot(208, false)
          else
           if i < 174 then
            if i == 172 then Slot(201, true) else Slot(211, true)
           else
            if i == 174 then Slot(249, true) else Slot(206, true)
        else
         if i < 184 then
          if i < 180 then
           if i < 178 then
            if i == 176 then Slot(199, true) else Slot(205, false)
           else
            if i == 178 then Slot(125, false) else Slot(252, false)
          else
           if i < 182 then
            if i == 180 then Slot(254, true) else Slot(210, false)
           else
            if i == 182 then Slot(253, false) else Slot(247, true)
         else
          if i < 188 then
           if i < 186 then
            if i == 184 then Slot(212, true) else Slot(201, false)
           else
            if i == 186 then Slot(254, false) else Slot(232, true)
          else
           if i < 190 then
            if i == 188 then Slot(252, true) else Slot(249, false)
           else
            if i == 190 then Slot(215, true) else Slot(218, true)
      else
       if i < 224 then
        if i < 208 then
         if i < 200 then
          if i < 196 then
           if i < 194 then
            if i == 192 then Slot(151, false) else Slot(213, true)
           else
            if i == 194 then Slot(245, false) else Slot(202, true)
          else
           if i < 198 then
            if i == 196 then Slot(246, true) else Slot(218, false)
           else
            if i == 198 then Slot(251, true) else Slot(214, true)
         else
          if i < 204 then
           if i < 202 then
            if i == 200 then Slot(205, true) else Slot(195, false)
           else
            if i == 202 then Slot(210, true) else Slot(209, true)
          else
           if i < 206 then
            if i == 204 then Slot(194, true) else Slot(241, false)
           else
            if i == 206 then Slot(192, false) else Slot(196, false)
        else
         if i < 216 then
          if i < 212 then
           if i < 210 then
            if i == 208 then Slot(238, false) else Slot(197, false)
           else
            if i == 210 then Slot(200, false) else Slot(203, false)
          else
           if i < 214 then
            if i == 212 then Slot(206, false) else Slot(244, true)
           else
            if i == 214 then Slot(191, false) else Slot(237, true)
         else
          if i < 220 then
           if i < 218 then
            if i == 216 then Slot(217, false) else Slot(216, false)
           else
            if i == 218 then Slot(213, false) else Slot(204, true)
          else
           if i < 222 then
            if i == 220 then Slot(214, false) else Slot(209, false)
           else
            if i == 222 then Slot(251, false) else Slot(253, true)
       else
        if i < 240 then
         if i < 232 then
          if i < 228 then
           if i < 226 then
            if i == 224 then Slot(245, true) else Slot(225, false)
           else
            if i == 226 then Slot(246, false) else Slot(196, true)
          else
           if i < 230 then
            if i == 228 then Slot(243, true) else Slot(243, false)
           else
            if i == 230 then Slot(216, true) else Slot(248, true)
         else
          if i < 236 then
           if i < 234 then
            if i == 232 then Slot(203, true) else Slot(247, false)
           else
            if i == 234 then Slot(86, false) else Slot(239, false)
          else
           if i < 238 then
            if i == 236 then Slot(189, false) else Slot(240, false)
           else
            if i == 238 then Slot(234, false) else Slot(204, false)
        else
         if i < 248 then
          if i < 244 then
           if i < 242 then
            if i == 240 then Slot(193, true) else Slot(228, true)
           else
            if i == 242 then Slot(235, true) else Slot(190, false)
          else
           if i < 246 then
            if i == 244 then Slot(207, true) else Slot(255, true)
           else
            if i == 246 then Slot(208, true) else Slot(255, false)
         else
          if i < 252 then
           if i < 250 then
            if i == 248 then Slot(143, true) else Slot(215, false)
           else
            if i == 250 then Slot(211, false) else Slot(233, false)
          else
           if i < 254 then
            if i == 252 then Slot(250, true) else Slot(237, false)
           else
            if i == 254 then Slot(198, false) else Slot(50, false)
    else
     Slot(7, true)
  }

  const TREE: seq<Node> := seq(NODES, i => NodeAt(i))
  const PARENTS := Parents(seq(NODES, i => NodeField(i)), seq(SYMBOLS, i => LeafField(i)))

  /** The nodes are numbered layer by layer. */
  function Layer(n: int): nat {
    if n < 1 then 0
    else if n < 3 then 1
    else if n < 6 then 2
    else if n < 12 then 3
    else if n < 23 then 4
    else if n < 43 then 5
    else if n < 76 then 6
    else if n < 123 then 7
    else if n < 188 then 8
    else if n < 243 then 9
    else 10
  }

  predicate NodeHeld(n: int) {
    var x := NodeField(n);
    x.pos < n && Child(NodeAt(x.pos), x.bit) == n && Layer(n) == Layer(x.pos) + 1
  }

  predicate SymbolHeld(s: int) {
    var x := LeafField(s);
    x.pos < NODES && Child(NodeAt(x.pos), x.bit) == -s
  }

  lemma FirstNodes(n: int)
    requires 1 <= n < 64
    ensures NodeHeld(n)
  {
  }

  lemma SecondNodes(n: int)
    requires 64 <= n < 128
    ensures NodeHeld(n)
  {
  }

  lemma ThirdNodes(n: int)
    requires 128 <= n < 192
    ensures NodeHeld(n)
  {
  }

  lemma FourthNodes(n: int)
    requires 192 <= n < 256
    ensures NodeHeld(n)
  {
  }

  lemma FirstSymbols(s: int)
    requires 0 <= s < 64
    ensures SymbolHeld(s)
  {
  }

  lemma SecondSymbols(s: int)
    requires 64 <= s < 128
    ensures SymbolHeld(s)
  {
  }

  lemma ThirdSymbols(s: int)
    requires 128 <= s < 192
    ensures SymbolHeld(s)
  {
  }

  lemma FourthSymbols(s: int)
    requires 192 <= s < 257
    ensures SymbolHeld(s)
  {
  }

  lemma NodesHeld(n: int)
    requires 1 <= n < NODES
    ensures NodeHeld(n)
  {
    if n < 64 {
      FirstNodes(n);
    } else if n < 128 {
      SecondNodes(n);
    } else if n < 192 {
      ThirdNodes(n);
    } else {
      FourthNodes(n);
    }
  }

  lemma SymbolsHeld(s: int)
    requires 0 <= s < SYMBOLS
    ensures SymbolHeld(s)
  {
    if s < 64 {
      FirstSymbols(s);
    } else if s < 128 {
      SecondSymbols(s);
    } else if s < 192 {
      ThirdSymbols(s);
    } else {
      FourthSymbols(s);
    }
  }

  lemma TreeParented()
    ensures Parented(TREE, PARENTS)
  {
    forall n | 1 <= n < NODES
      ensures PARENTS.node[n].pos < n
      ensures Child(TREE[PARENTS.node[n].pos], PARENTS.node[n].bit) == n
    {
      NodesHeld(n);
    }
    forall s | 0 <= s < SYMBOLS
      ensures PARENTS.leaf[s].pos < NODES
      ensures Child(TREE[PARENTS.leaf[s].pos], PARENTS.leaf[s].bit) == -s
    {
      SymbolsHeld(s);
    }
  }

  lemma {:induction false} PathLayer(n: nat)
    requires Parented(TREE, PARENTS) && n < NODES
    ensures |Path(TREE, PARENTS, n)| == Layer(n)
    decreases n
  {
    if n != 0 {
      NodesHeld(n);
      PathLayer(PARENTS.node[n].pos);
    }
  }

  /** The concrete tree is well formed, so everything proved of well-formed
      trees holds of it; in particular every code has 2 to 11 bits. */
  lemma TreeWellFormed()
    ensures WellFormed(TREE, PARENTS)
  {
    TreeParented();
    forall n | 0 <= n < NODES
      ensures |Path(TREE, PARENTS, n)| <= 10
    {
      PathLayer(n);
    }
    assert NodeAt(0) == Node(1, 2);
  }

  /** The flush symbol is the four bits 1101. */
  lemma FlushCode()
    ensures Parented(TREE, PARENTS)
    ensures Code(TREE, PARENTS, FLUSH) == [true, true, false, true]
  {
    TreeParented();
    assert LeafField(256) == Slot(7, true);
    assert NodeField(7) == Slot(3, false);
    assert NodeField(3) == Slot(1, true);
    assert NodeField(1) == Slot(0, true);
    assert Path(TREE, PARENTS, 0) == [];
    assert Path(TREE, PARENTS, 1) == [true];
    assert Path(TREE, PARENTS, 3) == [true, true];
    assert Path(TREE, PARENTS, 7) == [true, true, false];
  }
}
