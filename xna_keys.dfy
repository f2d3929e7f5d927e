/** The keyboard key codes the model uses, numbered as XNA's `Keys`
    enumeration numbers them (the Windows virtual-key codes). */
module XnaKeys {
  type Key = int

  const Back: Key := 8
  const Tab: Key := 9
  const Enter: Key := 13
  const Escape: Key := 27
  const Space: Key := 32
  const PageUp: Key := 33
  const PageDown: Key := 34
  const End: Key := 35
  const Home: Key := 36
  const Left: Key := 37
  const Up: Key := 38
  const Right: Key := 39
  const Down: Key := 40
  const Delete: Key := 46
  /** `D0` .. `D9` are 48 .. 57, `A` .. `Z` are 65 .. 90. */
  const D0: Key := 48
  const D5: Key := 53
  const D8: Key := 56
  const A: Key := 65
  /** `NumPad0` .. `NumPad9` are 96 .. 105. */
  const NumPad0: Key := 96
  const NumPad9: Key := 105
  const Multiply: Key := 106
  const Add: Key := 107
  const Subtract: Key := 109
  const Decimal: Key := 110
  const Divide: Key := 111
  const LeftShift: Key := 160
  const RightShift: Key := 161
  const LeftControl: Key := 162
  const RightControl: Key := 163
  const LeftAlt: Key := 164
  const RightAlt: Key := 165
  const OemSemicolon: Key := 186
  const OemPlus: Key := 187
  const OemComma: Key := 188
  const OemMinus: Key := 189
  const OemPeriod: Key := 190
  const OemQuestion: Key := 191
  const OemTilde: Key := 192
  const OemOpenBrackets: Key := 219
  const OemPipe: Key := 220
  const OemCloseBrackets: Key := 221
  const OemQuotes: Key := 222
}
