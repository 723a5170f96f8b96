/** Words that are numbers: the widths the peripheral bus, the core's datapath, the hash and the
    encoders share.
 */
module Words {

  type byte = x: int | 0 <= x < 0x100

  type half = x: int | 0 <= x < 0x1_0000

  type word = x: int | 0 <= x < 0x1_0000_0000

  type dword = x: int | 0 <= x < 0x1_0000_0000_0000_0000
}
