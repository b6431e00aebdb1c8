/**
 * The static Huffman code shared by HPACK and QPACK (Appendix B of RFC 7541).
 * It is canonical: the codes of one length are one run of consecutive numbers, and
 * each run begins where the shorter ones ended. Read as intervals of 30-bit words
 * the 21 runs tile the whole space, so the code is prefix-free and complete.
 */
module Huffman {
  import opened Bits
  import opened PrefixCode
  import opened Outcome

  /** The run of codes of each length. */
  predicate InClass(value: int, len: int) {
    match len
    case 5 => 0 <= value < 10
    case 6 => 20 <= value < 46
    case 7 => 92 <= value < 124
    case 8 => 248 <= value < 254
    case 10 => 1016 <= value < 1021
    case 11 => 2042 <= value < 2045
    case 12 => 4090 <= value < 4092
    case 13 => 8184 <= value < 8190
    case 14 => 16380 <= value < 16382
    case 15 => 32764 <= value < 32767
    case 19 => 524272 <= value < 524275
    case 20 => 1048550 <= value < 1048558
    case 21 => 2097116 <= value < 2097129
    case 22 => 4194258 <= value < 4194284
    case 23 => 8388568 <= value < 8388597
    case 24 => 16777194 <= value < 16777206
    case 25 => 33554412 <= value < 33554416
    case 26 => 67108832 <= value < 67108847
    case 27 => 134217694 <= value < 134217713
    case 28 => 268435426 <= value < 268435455
    case 30 => 1073741820 <= value < 1073741824
    case _ => false
  }

  // The symbols of each run, in order of their codes.

  function Symbols0(value: int, len: int): int {
    match len
    case 5 => (match value
      case 0 => 48 case 1 => 49 case 2 => 50 case 3 => 97 case 4 => 99 case 5 => 101 case 6 => 105 case 7 => 111
      case 8 => 115 case _ => 116)
    case 6 => (match value
      case 20 => 32 case 21 => 37 case 22 => 45 case 23 => 46 case 24 => 47 case 25 => 51 case 26 => 52 case 27 => 53
      case 28 => 54 case 29 => 55 case 30 => 56 case 31 => 57 case 32 => 61 case 33 => 65 case 34 => 95 case 35 => 98
      case 36 => 100 case 37 => 102 case 38 => 103 case 39 => 104 case 40 => 108 case 41 => 109 case 42 => 110
      case 43 => 112 case 44 => 114 case _ => 117)
    case 7 => (match value
      case 92 => 58 case 93 => 66 case 94 => 67 case 95 => 68 case 96 => 69 case 97 => 70 case 98 => 71 case 99 => 72
      case 100 => 73 case 101 => 74 case 102 => 75 case 103 => 76 case 104 => 77 case 105 => 78 case 106 => 79
      case 107 => 80 case 108 => 81 case 109 => 82 case 110 => 83 case 111 => 84 case 112 => 85 case 113 => 86
      case 114 => 87 case 115 => 89 case 116 => 106 case 117 => 107 case 118 => 113 case 119 => 118 case 120 => 119
      case 121 => 120 case 122 => 121 case _ => 122)
    case _ => 0
  }

  function Symbols1(value: int, len: int): int {
    match len
    case 8 => (match value
      case 248 => 38 case 249 => 42 case 250 => 44 case 251 => 59 case 252 => 88 case _ => 90)
    case 10 => (match value
      case 1016 => 33 case 1017 => 34 case 1018 => 40 case 1019 => 41 case _ => 63)
    case 11 => (match value
      case 2042 => 39 case 2043 => 43 case _ => 124)
    case 12 => (match value
      case 4090 => 35 case _ => 62)
    case 13 => (match value
      case 8184 => 0 case 8185 => 36 case 8186 => 64 case 8187 => 91 case 8188 => 93 case _ => 126)
    case 14 => (match value
      case 16380 => 94 case _ => 125)
    case 15 => (match value
      case 32764 => 60 case 32765 => 96 case _ => 123)
    case _ => 0
  }

  function Symbols2(value: int, len: int): int {
    match len
    case 19 => (match value
      case 524272 => 92 case 524273 => 195 case _ => 208)
    case 20 => (match value
      case 1048550 => 128 case 1048551 => 130 case 1048552 => 131 case 1048553 => 162 case 1048554 => 184
      case 1048555 => 194 case 1048556 => 224 case _ => 226)
    case 21 => (match value
      case 2097116 => 153 case 2097117 => 161 case 2097118 => 167 case 2097119 => 172 case 2097120 => 176
      case 2097121 => 177 case 2097122 => 179 case 2097123 => 209 case 2097124 => 216 case 2097125 => 217
      case 2097126 => 227 case 2097127 => 229 case _ => 230)
    case _ => 0
  }

  function Symbols3(value: int, len: int): int {
    match len
    case 22 => (match value
      case 4194258 => 129 case 4194259 => 132 case 4194260 => 133 case 4194261 => 134 case 4194262 => 136
      case 4194263 => 146 case 4194264 => 154 case 4194265 => 156 case 4194266 => 160 case 4194267 => 163
      case 4194268 => 164 case 4194269 => 169 case 4194270 => 170 case 4194271 => 173 case 4194272 => 178
      case 4194273 => 181 case 4194274 => 185 case 4194275 => 186 case 4194276 => 187 case 4194277 => 189
      case 4194278 => 190 case 4194279 => 196 case 4194280 => 198 case 4194281 => 228 case 4194282 => 232
      case _ => 233)
    case 23 => (match value
      case 8388568 => 1 case 8388569 => 135 case 8388570 => 137 case 8388571 => 138 case 8388572 => 139
      case 8388573 => 140 case 8388574 => 141 case 8388575 => 143 case 8388576 => 147 case 8388577 => 149
      case 8388578 => 150 case 8388579 => 151 case 8388580 => 152 case 8388581 => 155 case 8388582 => 157
      case 8388583 => 158 case 8388584 => 165 case 8388585 => 166 case 8388586 => 168 case 8388587 => 174
      case 8388588 => 175 case 8388589 => 180 case 8388590 => 182 case 8388591 => 183 case 8388592 => 188
      case 8388593 => 191 case 8388594 => 197 case 8388595 => 231 case _ => 239)
    case _ => 0
  }

  function Symbols4(value: int, len: int): int {
    match len
    case 24 => (match value
      case 16777194 => 9 case 16777195 => 142 case 16777196 => 144 case 16777197 => 145 case 16777198 => 148
      case 16777199 => 159 case 16777200 => 171 case 16777201 => 206 case 16777202 => 215 case 16777203 => 225
      case 16777204 => 236 case _ => 237)
    case 25 => (match value
      case 33554412 => 199 case 33554413 => 207 case 33554414 => 234 case _ => 235)
    case 26 => (match value
      case 67108832 => 192 case 67108833 => 193 case 67108834 => 200 case 67108835 => 201 case 67108836 => 202
      case 67108837 => 205 case 67108838 => 210 case 67108839 => 213 case 67108840 => 218 case 67108841 => 219
      case 67108842 => 238 case 67108843 => 240 case 67108844 => 242 case 67108845 => 243 case _ => 255)
    case _ => 0
  }

  function Symbols5(value: int, len: int): int {
    match len
    case 27 => (match value
      case 134217694 => 203 case 134217695 => 204 case 134217696 => 211 case 134217697 => 212 case 134217698 => 214
      case 134217699 => 221 case 134217700 => 222 case 134217701 => 223 case 134217702 => 241 case 134217703 => 244
      case 134217704 => 245 case 134217705 => 246 case 134217706 => 247 case 134217707 => 248 case 134217708 => 250
      case 134217709 => 251 case 134217710 => 252 case 134217711 => 253 case _ => 254)
    case 28 => (match value
      case 268435426 => 2 case 268435427 => 3 case 268435428 => 4 case 268435429 => 5 case 268435430 => 6
      case 268435431 => 7 case 268435432 => 8 case 268435433 => 11 case 268435434 => 12 case 268435435 => 14
      case 268435436 => 15 case 268435437 => 16 case 268435438 => 17 case 268435439 => 18 case 268435440 => 19
      case 268435441 => 20 case 268435442 => 21 case 268435443 => 23 case 268435444 => 24 case 268435445 => 25
      case 268435446 => 26 case 268435447 => 27 case 268435448 => 28 case 268435449 => 29 case 268435450 => 30
      case 268435451 => 31 case 268435452 => 127 case 268435453 => 220 case _ => 249)
    case 30 => (match value
      case 1073741820 => 10 case 1073741821 => 13 case 1073741822 => 22 case _ => 256)
    case _ => 0
  }

  function SymbolOf(value: int, len: int): int {
    if len <= 7 then Symbols0(value, len)
    else if len <= 15 then Symbols1(value, len)
    else if len <= 21 then Symbols2(value, len)
    else if len <= 23 then Symbols3(value, len)
    else if len <= 26 then Symbols4(value, len)
    else Symbols5(value, len)
  }

  predicate IsCodeOf(c: (int, int), sym: int) {
    InClass(c.0, c.1) && SymbolOf(c.0, c.1) == sym
  }

  // The table of the source, in symbol order.

  function Row0(sym: int): (int, int) {
    match sym
    case 0 => (8184, 13) case 1 => (8388568, 23) case 2 => (268435426, 28) case 3 => (268435427, 28)
    case 4 => (268435428, 28) case 5 => (268435429, 28) case 6 => (268435430, 28) case 7 => (268435431, 28)
    case 8 => (268435432, 28) case 9 => (16777194, 24) case 10 => (1073741820, 30) case 11 => (268435433, 28)
    case 12 => (268435434, 28) case 13 => (1073741821, 30) case 14 => (268435435, 28) case 15 => (268435436, 28)
    case 16 => (268435437, 28) case 17 => (268435438, 28) case 18 => (268435439, 28) case 19 => (268435440, 28)
    case 20 => (268435441, 28) case 21 => (268435442, 28) case 22 => (1073741822, 30) case 23 => (268435443, 28)
    case 24 => (268435444, 28) case 25 => (268435445, 28) case 26 => (268435446, 28) case 27 => (268435447, 28)
    case 28 => (268435448, 28) case 29 => (268435449, 28) case 30 => (268435450, 28) case _ => (268435451, 28)
  }

  function Row1(sym: int): (int, int) {
    match sym
    case 32 => (20, 6) case 33 => (1016, 10) case 34 => (1017, 10) case 35 => (4090, 12)
    case 36 => (8185, 13) case 37 => (21, 6) case 38 => (248, 8) case 39 => (2042, 11)
    case 40 => (1018, 10) case 41 => (1019, 10) case 42 => (249, 8) case 43 => (2043, 11)
    case 44 => (250, 8) case 45 => (22, 6) case 46 => (23, 6) case 47 => (24, 6)
    case 48 => (0, 5) case 49 => (1, 5) case 50 => (2, 5) case 51 => (25, 6)
    case 52 => (26, 6) case 53 => (27, 6) case 54 => (28, 6) case 55 => (29, 6)
    case 56 => (30, 6) case 57 => (31, 6) case 58 => (92, 7) case 59 => (251, 8)
    case 60 => (32764, 15) case 61 => (32, 6) case 62 => (4091, 12) case _ => (1020, 10)
  }

  function Row2(sym: int): (int, int) {
    match sym
    case 64 => (8186, 13) case 65 => (33, 6) case 66 => (93, 7) case 67 => (94, 7)
    case 68 => (95, 7) case 69 => (96, 7) case 70 => (97, 7) case 71 => (98, 7)
    case 72 => (99, 7) case 73 => (100, 7) case 74 => (101, 7) case 75 => (102, 7)
    case 76 => (103, 7) case 77 => (104, 7) case 78 => (105, 7) case 79 => (106, 7)
    case 80 => (107, 7) case 81 => (108, 7) case 82 => (109, 7) case 83 => (110, 7)
    case 84 => (111, 7) case 85 => (112, 7) case 86 => (113, 7) case 87 => (114, 7)
    case 88 => (252, 8) case 89 => (115, 7) case 90 => (253, 8) case 91 => (8187, 13)
    case 92 => (524272, 19) case 93 => (8188, 13) case 94 => (16380, 14) case _ => (34, 6)
  }

  function Row3(sym: int): (int, int) {
    match sym
    case 96 => (32765, 15) case 97 => (3, 5) case 98 => (35, 6) case 99 => (4, 5)
    case 100 => (36, 6) case 101 => (5, 5) case 102 => (37, 6) case 103 => (38, 6)
    case 104 => (39, 6) case 105 => (6, 5) case 106 => (116, 7) case 107 => (117, 7)
    case 108 => (40, 6) case 109 => (41, 6) case 110 => (42, 6) case 111 => (7, 5)
    case 112 => (43, 6) case 113 => (118, 7) case 114 => (44, 6) case 115 => (8, 5)
    case 116 => (9, 5) case 117 => (45, 6) case 118 => (119, 7) case 119 => (120, 7)
    case 120 => (121, 7) case 121 => (122, 7) case 122 => (123, 7) case 123 => (32766, 15)
    case 124 => (2044, 11) case 125 => (16381, 14) case 126 => (8189, 13) case _ => (268435452, 28)
  }

  function Row4(sym: int): (int, int) {
    match sym
    case 128 => (1048550, 20) case 129 => (4194258, 22) case 130 => (1048551, 20) case 131 => (1048552, 20)
    case 132 => (4194259, 22) case 133 => (4194260, 22) case 134 => (4194261, 22) case 135 => (8388569, 23)
    case 136 => (4194262, 22) case 137 => (8388570, 23) case 138 => (8388571, 23) case 139 => (8388572, 23)
    case 140 => (8388573, 23) case 141 => (8388574, 23) case 142 => (16777195, 24) case 143 => (8388575, 23)
    case 144 => (16777196, 24) case 145 => (16777197, 24) case 146 => (4194263, 22) case 147 => (8388576, 23)
    case 148 => (16777198, 24) case 149 => (8388577, 23) case 150 => (8388578, 23) case 151 => (8388579, 23)
    case 152 => (8388580, 23) case 153 => (2097116, 21) case 154 => (4194264, 22) case 155 => (8388581, 23)
    case 156 => (4194265, 22) case 157 => (8388582, 23) case 158 => (8388583, 23) case _ => (16777199, 24)
  }

  function Row5(sym: int): (int, int) {
    match sym
    case 160 => (4194266, 22) case 161 => (2097117, 21) case 162 => (1048553, 20) case 163 => (4194267, 22)
    case 164 => (4194268, 22) case 165 => (8388584, 23) case 166 => (8388585, 23) case 167 => (2097118, 21)
    case 168 => (8388586, 23) case 169 => (4194269, 22) case 170 => (4194270, 22) case 171 => (16777200, 24)
    case 172 => (2097119, 21) case 173 => (4194271, 22) case 174 => (8388587, 23) case 175 => (8388588, 23)
    case 176 => (2097120, 21) case 177 => (2097121, 21) case 178 => (4194272, 22) case 179 => (2097122, 21)
    case 180 => (8388589, 23) case 181 => (4194273, 22) case 182 => (8388590, 23) case 183 => (8388591, 23)
    case 184 => (1048554, 20) case 185 => (4194274, 22) case 186 => (4194275, 22) case 187 => (4194276, 22)
    case 188 => (8388592, 23) case 189 => (4194277, 22) case 190 => (4194278, 22) case _ => (8388593, 23)
  }

  function Row6(sym: int): (int, int) {
    match sym
    case 192 => (67108832, 26) case 193 => (67108833, 26) case 194 => (1048555, 20) case 195 => (524273, 19)
    case 196 => (4194279, 22) case 197 => (8388594, 23) case 198 => (4194280, 22) case 199 => (33554412, 25)
    case 200 => (67108834, 26) case 201 => (67108835, 26) case 202 => (67108836, 26) case 203 => (134217694, 27)
    case 204 => (134217695, 27) case 205 => (67108837, 26) case 206 => (16777201, 24) case 207 => (33554413, 25)
    case 208 => (524274, 19) case 209 => (2097123, 21) case 210 => (67108838, 26) case 211 => (134217696, 27)
    case 212 => (134217697, 27) case 213 => (67108839, 26) case 214 => (134217698, 27) case 215 => (16777202, 24)
    case 216 => (2097124, 21) case 217 => (2097125, 21) case 218 => (67108840, 26) case 219 => (67108841, 26)
    case 220 => (268435453, 28) case 221 => (134217699, 27) case 222 => (134217700, 27) case _ => (134217701, 27)
  }

  function Row7(sym: int): (int, int) {
    match sym
    case 224 => (1048556, 20) case 225 => (16777203, 24) case 226 => (1048557, 20) case 227 => (2097126, 21)
    case 228 => (4194281, 22) case 229 => (2097127, 21) case 230 => (2097128, 21) case 231 => (8388595, 23)
    case 232 => (4194282, 22) case 233 => (4194283, 22) case 234 => (33554414, 25) case 235 => (33554415, 25)
    case 236 => (16777204, 24) case 237 => (16777205, 24) case 238 => (67108842, 26) case 239 => (8388596, 23)
    case 240 => (67108843, 26) case 241 => (134217702, 27) case 242 => (67108844, 26) case 243 => (67108845, 26)
    case 244 => (134217703, 27) case 245 => (134217704, 27) case 246 => (134217705, 27) case 247 => (134217706, 27)
    case 248 => (134217707, 27) case 249 => (268435454, 28) case 250 => (134217708, 27) case 251 => (134217709, 27)
    case 252 => (134217710, 27) case 253 => (134217711, 27) case 254 => (134217712, 27) case _ => (67108846, 26)
  }

  function CodeOf(sym: int): (int, int) {
    if sym < 32 then Row0(sym)
    else if sym < 64 then Row1(sym)
    else if sym < 96 then Row2(sym)
    else if sym < 128 then Row3(sym)
    else if sym < 160 then Row4(sym)
    else if sym < 192 then Row5(sym)
    else if sym < 224 then Row6(sym)
    else if sym < 256 then Row7(sym)
    else (1073741823, 30)
  }

  lemma Row0Canonical(sym: int)
    requires 0 <= sym < 32
    ensures IsCodeOf(Row0(sym), sym)
  {
  }

  lemma Row1LowCanonical(sym: int)
    requires 32 <= sym < 48
    ensures IsCodeOf(Row1(sym), sym)
  {
  }

  lemma Row1HighCanonical(sym: int)
    requires 48 <= sym < 64
    ensures IsCodeOf(Row1(sym), sym)
  {
  }

  lemma Row1Canonical(sym: int)
    requires 32 <= sym < 64
    ensures IsCodeOf(Row1(sym), sym)
  {
    if sym < 48 { Row1LowCanonical(sym); } else { Row1HighCanonical(sym); }
  }

  lemma Row2Canonical(sym: int)
    requires 64 <= sym < 96
    ensures IsCodeOf(Row2(sym), sym)
  {
  }

  lemma Row3LowCanonical(sym: int)
    requires 96 <= sym < 112
    ensures IsCodeOf(Row3(sym), sym)
  {
  }

  lemma Row3HighCanonical(sym: int)
    requires 112 <= sym < 128
    ensures IsCodeOf(Row3(sym), sym)
  {
  }

  lemma Row3Canonical(sym: int)
    requires 96 <= sym < 128
    ensures IsCodeOf(Row3(sym), sym)
  {
    if sym < 112 { Row3LowCanonical(sym); } else { Row3HighCanonical(sym); }
  }

  lemma Row4Canonical(sym: int)
    requires 128 <= sym < 160
    ensures IsCodeOf(Row4(sym), sym)
  {
  }

  lemma Row5LowCanonical(sym: int)
    requires 160 <= sym < 176
    ensures IsCodeOf(Row5(sym), sym)
  {
  }

  lemma Row5HighCanonical(sym: int)
    requires 176 <= sym < 192
    ensures IsCodeOf(Row5(sym), sym)
  {
  }

  lemma Row5Canonical(sym: int)
    requires 160 <= sym < 192
    ensures IsCodeOf(Row5(sym), sym)
  {
    if sym < 176 { Row5LowCanonical(sym); } else { Row5HighCanonical(sym); }
  }

  lemma Row6Canonical(sym: int)
    requires 192 <= sym < 224
    ensures IsCodeOf(Row6(sym), sym)
  {
  }

  lemma Row7LowCanonical(sym: int)
    requires 224 <= sym < 240
    ensures IsCodeOf(Row7(sym), sym)
  {
  }

  lemma Row7HighCanonical(sym: int)
    requires 240 <= sym < 256
    ensures IsCodeOf(Row7(sym), sym)
  {
  }

  lemma Row7Canonical(sym: int)
    requires 224 <= sym < 256
    ensures IsCodeOf(Row7(sym), sym)
  {
    if sym < 240 { Row7LowCanonical(sym); } else { Row7HighCanonical(sym); }
  }

  /** Each symbol stands at its own place. */
  lemma TableIsCanonical(sym: int)
    requires 0 <= sym < 257
    ensures IsCodeOf(CodeOf(sym), sym)
  {
    if sym < 32 { Row0Canonical(sym); }
    else if sym < 64 { Row1Canonical(sym); }
    else if sym < 96 { Row2Canonical(sym); }
    else if sym < 128 { Row3Canonical(sym); }
    else if sym < 160 { Row4Canonical(sym); }
    else if sym < 192 { Row5Canonical(sym); }
    else if sym < 224 { Row6Canonical(sym); }
    else if sym < 256 { Row7Canonical(sym); }
  }

  function TableCode(sym: int): (c: Code)
    requires 0 <= sym < 257
  {
    TableIsCanonical(sym);
    Code(CodeOf(sym).0, CodeOf(sym).1)
  }

  function TableUpTo(n: nat): (t: seq<Code>)
    requires n <= 257
    ensures |t| == n
  {
    if n == 0 then [] else TableUpTo(n - 1) + [TableCode(n - 1)]
  }

  lemma {:induction false} TableUpToAt(n: nat, sym: nat)
    requires sym < n <= 257
    ensures TableUpTo(n)[sym] == TableCode(sym)
  {
    if sym < n - 1 { TableUpToAt(n - 1, sym); }
  }

  const SIZE: nat := 257
  const TABLE: seq<Code> := TableUpTo(SIZE)

  /** The place `value` of the run of length `len` is the table's code of its symbol. */
  predicate IsTableEntry(value: int, len: int) {
    var sym := SymbolOf(value, len);
    0 <= sym < 257 && CodeOf(sym) == (value, len)
  }

  lemma Run5(value: int, len: int)
    requires InClass(value, len) && len == 5
    ensures IsTableEntry(value, len)
  {
  }

  lemma Run6(value: int, len: int)
    requires InClass(value, len) && len == 6
    ensures IsTableEntry(value, len)
  {
  }

  lemma Run7(value: int, len: int)
    requires InClass(value, len) && len == 7
    ensures IsTableEntry(value, len)
  {
  }

  lemma Runs0(value: int, len: int)
    requires InClass(value, len) && 0 <= len <= 7
    ensures IsTableEntry(value, len)
  {
    if len == 5 { Run5(value, len); } else if len == 6 { Run6(value, len); } else { Run7(value, len); }
  }

  lemma Runs1(value: int, len: int)
    requires InClass(value, len) && 8 <= len <= 15
    ensures IsTableEntry(value, len)
  {
  }

  lemma Runs2(value: int, len: int)
    requires InClass(value, len) && 19 <= len <= 21
    ensures IsTableEntry(value, len)
  {
  }

  lemma Run22(value: int, len: int)
    requires InClass(value, len) && len == 22
    ensures IsTableEntry(value, len)
  {
  }

  lemma Run23(value: int, len: int)
    requires InClass(value, len) && len == 23
    ensures IsTableEntry(value, len)
  {
  }

  lemma Runs3(value: int, len: int)
    requires InClass(value, len) && 22 <= len <= 23
    ensures IsTableEntry(value, len)
  {
    if len == 22 { Run22(value, len); } else { Run23(value, len); }
  }

  lemma Runs4(value: int, len: int)
    requires InClass(value, len) && 24 <= len <= 26
    ensures IsTableEntry(value, len)
  {
  }

  lemma Run27(value: int, len: int)
    requires InClass(value, len) && len == 27
    ensures IsTableEntry(value, len)
  {
  }

  lemma Run28(value: int, len: int)
    requires InClass(value, len) && len == 28
    ensures IsTableEntry(value, len)
  {
  }

  lemma Run30(value: int, len: int)
    requires InClass(value, len) && len == 30
    ensures IsTableEntry(value, len)
  {
  }

  lemma Runs5(value: int, len: int)
    requires InClass(value, len) && 27 <= len <= 30
    ensures IsTableEntry(value, len)
  {
    if len == 27 { Run27(value, len); } else if len == 28 { Run28(value, len); } else { Run30(value, len); }
  }

  lemma RunsAreTable(value: int, len: int)
    requires InClass(value, len)
    ensures IsTableEntry(value, len)
  {
    if len <= 7 { Runs0(value, len); }
    else if len <= 15 { Runs1(value, len); }
    else if len <= 21 { Runs2(value, len); }
    else if len <= 23 { Runs3(value, len); }
    else if len <= 26 { Runs4(value, len); }
    else { Runs5(value, len); }
  }

  /** How many 30-bit words start with one code of length `len`. */
  function Weight(len: int): int {
    match len
    case 5 => 33554432
    case 6 => 16777216
    case 7 => 8388608
    case 8 => 4194304
    case 9 => 2097152
    case 10 => 1048576
    case 11 => 524288
    case 12 => 262144
    case 13 => 131072
    case 14 => 65536
    case 15 => 32768
    case 16 => 16384
    case 17 => 8192
    case 18 => 4096
    case 19 => 2048
    case 20 => 1024
    case 21 => 512
    case 22 => 256
    case 23 => 128
    case 24 => 64
    case 25 => 32
    case 26 => 16
    case 27 => 8
    case 28 => 4
    case 29 => 2
    case _ => 1
  }

  lemma {:induction false} WeightIsPow2(len: nat)
    requires 5 <= len <= 30
    ensures Weight(len) == Pow2(30 - len)
    decreases 30 - len
  {
    if len < 30 { WeightIsPow2(len + 1); }
  }

  /** The length of the code a 30-bit word starts with. */
  function ClassOf(word: int): int {
    if word < 335544320 then 5
    else if word < 771751936 then 6
    else if word < 1040187392 then 7
    else if word < 1065353216 then 8
    else if word < 1070596096 then 10
    else if word < 1072168960 then 11
    else if word < 1072693248 then 12
    else if word < 1073479680 then 13
    else if word < 1073610752 then 14
    else if word < 1073709056 then 15
    else if word < 1073715200 then 19
    else if word < 1073723392 then 20
    else if word < 1073730048 then 21
    else if word < 1073736704 then 22
    else if word < 1073740416 then 23
    else if word < 1073741184 then 24
    else if word < 1073741312 then 25
    else if word < 1073741552 then 26
    else if word < 1073741704 then 27
    else if word < 1073741820 then 28
    else 30
  }

  /** The runs leave no gap ... */
  lemma NoGap(word: int)
    requires 0 <= word < 0x4000_0000
    ensures 5 <= ClassOf(word) <= 30 && InClass(word / Weight(ClassOf(word)), ClassOf(word))
  {
  }

  /** ... and do not overlap. */
  lemma NoOverlap(word: int, len: int)
    requires 5 <= len <= 30 && InClass(word / Weight(len), len)
    ensures len == ClassOf(word)
  {
  }

  /** The code `c` starts `b` exactly when the first 30 bits of `b` lie in its interval. */
  lemma StartsIsInterval(c: Code, b: seq<bool>)
    requires 5 <= c.len <= 30 <= |b|
    ensures Starts(c, b) <==> Val(b[..30]) / Weight(c.len) == c.value
  {
    ShiftAndMask(b[..30], c.len);
    WeightIsPow2(c.len);
    assert b[..30][..c.len] == b[..c.len];
  }

  lemma EntryOf(sym: int)
    requires 0 <= sym < 257
    ensures TABLE[sym].value == CodeOf(sym).0 && TABLE[sym].len == CodeOf(sym).1
    ensures InClass(TABLE[sym].value, TABLE[sym].len) && SymbolOf(TABLE[sym].value, TABLE[sym].len) == sym
    ensures 5 <= TABLE[sym].len <= 30
  {
    TableUpToAt(SIZE, sym);
    TableIsCanonical(sym);
  }

  /** A 30-bit word determines the only symbol whose code starts it. */
  function SymbolAt(word: int): int {
    SymbolOf(word / Weight(ClassOf(word)), ClassOf(word))
  }

  lemma OnlySymbol(sym: int, b: seq<bool>)
    requires 0 <= sym < 257 && |b| >= 30 && Starts(TABLE[sym], b)
    ensures sym == SymbolAt(Val(b[..30]))
  {
    EntryOf(sym);
    StartsIsInterval(TABLE[sym], b);
    NoOverlap(Val(b[..30]), TABLE[sym].len);
  }

  lemma SomeSymbol(b: seq<bool>)
    requires |b| >= 30
    ensures HasCode(TABLE, b)
  {
    var word := Val(b[..30]);
    Pow2Values();
    NoGap(word);
    var len := ClassOf(word);
    var value := word / Weight(len);
    RunsAreTable(value, len);
    EntryOf(SymbolOf(value, len));
    StartsIsInterval(TABLE[SymbolOf(value, len)], b);
  }

  /** Extending a bit string keeps the codes that start it. */
  lemma StartsExtended(c: Code, b: seq<bool>, more: seq<bool>)
    requires Starts(c, b)
    ensures Starts(c, b + more)
  {
    assert (b + more)[..c.len] == b[..c.len];
  }

  lemma AtMostOne(i: int, j: int, b: seq<bool>)
    requires 0 <= i < 257 && 0 <= j < 257 && Starts(TABLE[i], b) && Starts(TABLE[j], b)
    ensures i == j
  {
    var more := Ones(30);
    StartsExtended(TABLE[i], b, more);
    StartsExtended(TABLE[j], b, more);
    OnlySymbol(i, b + more);
    OnlySymbol(j, b + more);
  }

  lemma RunBound(value: int, len: int)
    requires InClass(value, len)
    ensures 5 <= len <= 30 && 0 <= value && value * Weight(len) < 0x4000_0000
  {
  }

  lemma Cancel(a: int, b: int, w: int)
    requires w > 0 && a * w < b * w
    ensures a < b
  {
  }

  lemma RunFits(value: int, len: int)
    requires InClass(value, len)
    ensures 0 <= value < Pow2(len)
  {
    RunBound(value, len);
    WeightIsPow2(len);
    Pow2Adds(len, 30 - len);
    Pow2Values();
    Cancel(value, Pow2(len), Pow2(30 - len));
  }

  /** The static table is a complete prefix code. */
  lemma TableIsPrefixCode()
    ensures CompletePrefixCode(TABLE)
  {
    forall i | 0 <= i < 257 ensures 0 < TABLE[i].len <= 30 && TABLE[i].value < Pow2(TABLE[i].len) {
      EntryOf(i);
      RunFits(TABLE[i].value, TABLE[i].len);
    }
    forall i, j, b | 0 <= i < 257 && 0 <= j < 257 && Starts(TABLE[i], b) && Starts(TABLE[j], b) ensures i == j {
      AtMostOne(i, j, b);
    }
    forall b: seq<bool> | |b| >= 30 ensures HasCode(TABLE, b) {
      SomeSymbol(b);
    }
    EntryOf(256);
    Pow2Values();
  }

  // ---------------------------------------------------------------- canonical order

  /** Inside a run the next code is that of a larger symbol. */
  predicate NextIsLarger(value: int, len: int) {
    SymbolOf(value, len) < SymbolOf(value + 1, len)
  }

  lemma Order5(value: int, len: int)
    requires InClass(value, len) && InClass(value + 1, len) && len == 5
    ensures NextIsLarger(value, len)
  {
  }

  lemma Order6(value: int, len: int)
    requires InClass(value, len) && InClass(value + 1, len) && len == 6
    ensures NextIsLarger(value, len)
  {
  }

  lemma Order7(value: int, len: int)
    requires InClass(value, len) && InClass(value + 1, len) && len == 7
    ensures NextIsLarger(value, len)
  {
  }

  lemma OrderShort(value: int, len: int)
    requires InClass(value, len) && InClass(value + 1, len) && 8 <= len <= 15
    ensures NextIsLarger(value, len)
  {
  }

  lemma OrderMiddle(value: int, len: int)
    requires InClass(value, len) && InClass(value + 1, len) && 19 <= len <= 21
    ensures NextIsLarger(value, len)
  {
  }

  lemma Order22(value: int, len: int)
    requires InClass(value, len) && InClass(value + 1, len) && len == 22
    ensures NextIsLarger(value, len)
  {
  }

  lemma Order23(value: int, len: int)
    requires InClass(value, len) && InClass(value + 1, len) && len == 23
    ensures NextIsLarger(value, len)
  {
  }

  lemma OrderLong(value: int, len: int)
    requires InClass(value, len) && InClass(value + 1, len) && 24 <= len <= 26
    ensures NextIsLarger(value, len)
  {
  }

  lemma Order27(value: int, len: int)
    requires InClass(value, len) && InClass(value + 1, len) && len == 27
    ensures NextIsLarger(value, len)
  {
  }

  lemma Order28(value: int, len: int)
    requires InClass(value, len) && InClass(value + 1, len) && len == 28
    ensures NextIsLarger(value, len)
  {
  }

  lemma Order30(value: int, len: int)
    requires InClass(value, len) && InClass(value + 1, len) && len == 30
    ensures NextIsLarger(value, len)
  {
  }

  lemma SymbolsAscend(value: int, len: int)
    requires InClass(value, len) && InClass(value + 1, len)
    ensures NextIsLarger(value, len)
  {
    if len == 5 { Order5(value, len); }
    else if len == 6 { Order6(value, len); }
    else if len == 7 { Order7(value, len); }
    else if len <= 15 { OrderShort(value, len); }
    else if len <= 21 { OrderMiddle(value, len); }
    else if len == 22 { Order22(value, len); }
    else if len == 23 { Order23(value, len); }
    else if len <= 26 { OrderLong(value, len); }
    else if len == 27 { Order27(value, len); }
    else if len == 28 { Order28(value, len); }
    else { Order30(value, len); }
  }

  lemma {:induction false} RunAscends(v: int, w: int, len: int)
    requires InClass(v, len) && InClass(w, len) && v < w
    ensures SymbolOf(v, len) < SymbolOf(w, len)
    decreases w - v
  {
    Between(v, w, len);
    SymbolsAscend(v, len);
    if v + 1 < w { RunAscends(v + 1, w, len); }
  }

  /** A run has no holes. */
  lemma Between(v: int, w: int, len: int)
    requires InClass(v, len) && InClass(w, len) && v < w
    ensures InClass(v + 1, len)
  {
  }

  /** The code is canonical: of two symbols with codes of one length the larger symbol has the larger code. */
  lemma CanonicalOrder(i: int, j: int)
    requires 0 <= i < j < 257 && TABLE[i].len == TABLE[j].len
    ensures TABLE[i].value < TABLE[j].value
  {
    EntryOf(i);
    EntryOf(j);
    if TABLE[j].value < TABLE[i].value { RunAscends(TABLE[j].value, TABLE[i].value, TABLE[i].len); }
  }

  // The symbols of each length. With the canonical order this determines every code.

  lemma CodesOf5To7(sym: int)
    requires 0 <= sym < 257
    ensures CodeOf(sym).1 == 5 <==> sym in {48, 49, 50, 97, 99, 101, 105, 111, 115, 116}
    ensures CodeOf(sym).1 == 6 <==> sym in {
              32, 37, 45, 46, 47, 51, 52, 53, 54, 55, 56, 57, 61, 65, 95, 98, 100, 102, 103, 104, 108, 109, 110,
              112, 114, 117}
    ensures CodeOf(sym).1 == 7 <==> sym in {
              58, 66, 67, 68, 69, 70, 71, 72, 73, 74, 75, 76, 77, 78, 79, 80, 81, 82, 83, 84, 85, 86, 87, 89, 106,
              107, 113, 118, 119, 120, 121, 122}
  {
    TableIsCanonical(sym);
  }

  lemma CodesOf8To11(sym: int)
    requires 0 <= sym < 257
    ensures CodeOf(sym).1 == 8 <==> sym in {38, 42, 44, 59, 88, 90}
    ensures CodeOf(sym).1 == 10 <==> sym in {33, 34, 40, 41, 63}
    ensures CodeOf(sym).1 == 11 <==> sym in {39, 43, 124}
  {
    TableIsCanonical(sym);
  }

  lemma CodesOf12To15(sym: int)
    requires 0 <= sym < 257
    ensures CodeOf(sym).1 == 12 <==> sym in {35, 62}
    ensures CodeOf(sym).1 == 13 <==> sym in {0, 36, 64, 91, 93, 126}
    ensures CodeOf(sym).1 == 14 <==> sym in {94, 125}
    ensures CodeOf(sym).1 == 15 <==> sym in {60, 96, 123}
  {
    TableIsCanonical(sym);
  }

  lemma CodesOf19To21(sym: int)
    requires 0 <= sym < 257
    ensures CodeOf(sym).1 == 19 <==> sym in {92, 195, 208}
    ensures CodeOf(sym).1 == 20 <==> sym in {128, 130, 131, 162, 184, 194, 224, 226}
    ensures CodeOf(sym).1 == 21 <==> sym in {153, 161, 167, 172, 176, 177, 179, 209, 216, 217, 227, 229, 230}
  {
    TableIsCanonical(sym);
  }

  lemma CodesOf22And23(sym: int)
    requires 0 <= sym < 257
    ensures CodeOf(sym).1 == 22 <==> sym in {
              129, 132, 133, 134, 136, 146, 154, 156, 160, 163, 164, 169, 170, 173, 178, 181, 185, 186, 187, 189,
              190, 196, 198, 228, 232, 233}
    ensures CodeOf(sym).1 == 23 <==> sym in {
              1, 135, 137, 138, 139, 140, 141, 143, 147, 149, 150, 151, 152, 155, 157, 158, 165, 166, 168, 174,
              175, 180, 182, 183, 188, 191, 197, 231, 239}
  {
    TableIsCanonical(sym);
  }

  lemma CodesOf24To26(sym: int)
    requires 0 <= sym < 257
    ensures CodeOf(sym).1 == 24 <==> sym in {9, 142, 144, 145, 148, 159, 171, 206, 215, 225, 236, 237}
    ensures CodeOf(sym).1 == 25 <==> sym in {199, 207, 234, 235}
    ensures CodeOf(sym).1 == 26 <==> sym in {
              192, 193, 200, 201, 202, 205, 210, 213, 218, 219, 238, 240, 242, 243, 255}
  {
    TableIsCanonical(sym);
  }

  lemma CodesOf27(sym: int)
    requires 0 <= sym < 257
    ensures CodeOf(sym).1 == 27 <==> sym in {
              203, 204, 211, 212, 214, 221, 222, 223, 241, 244, 245, 246, 247, 248, 250, 251, 252, 253, 254}
  {
    TableIsCanonical(sym);
  }

  lemma CodesOf28And30(sym: int)
    requires 0 <= sym < 257
    ensures CodeOf(sym).1 == 28 <==> sym in {
              2, 3, 4, 5, 6, 7, 8, 11, 12, 14, 15, 16, 17, 18, 19, 20, 21, 23, 24, 25, 26, 27, 28, 29, 30, 31,
              127, 220, 249}
    ensures CodeOf(sym).1 == 30 <==> sym in {10, 13, 22, 256}
  {
    TableIsCanonical(sym);
  }

  /** `raw` is the Huffman coding of `text`. */
  ghost predicate IsCoding(raw: seq<byte>, text: seq<byte>) {
    raw == Encode(TABLE, text)
  }

  /** Huffman decoding is the exact inverse of the encoder, on every byte string. */
  method Decode(raw: seq<byte>) returns (r: Result<seq<byte>>)
    ensures forall text :: r == Ok(text) <==> IsCoding(raw, text)
  {
    TableIsPrefixCode();
    r := PrefixCode.Decode(TABLE, raw);
  }

  lemma CodingUnique(raw: seq<byte>, text1: seq<byte>, text2: seq<byte>)
    requires IsCoding(raw, text1) && IsCoding(raw, text2)
    ensures text1 == text2
  {
    TableIsPrefixCode();
    EncodeInjective(TABLE, text1, text2);
  }
}
