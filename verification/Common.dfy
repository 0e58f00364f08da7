/** What several parts of the runtime share. */
module Common {

  datatype Option<+T> = None | Some(value: T)

  /** How a container is connected. */
  datatype Network = NoNetwork | HostNetwork | Bridge | GVisorHost

  /** The code points with the White_Space property of Unicode. */
  predicate IsWhiteSpace(n: int) {
    9 <= n <= 13 || n == 0x20 || n == 0x85 || n == 0xA0 || n == 0x1680 || 0x2000 <= n <= 0x200A
    || n == 0x2028 || n == 0x2029 || n == 0x202F || n == 0x205F || n == 0x3000
  }

  /** All 25 of them, one by one. */
  lemma WhiteSpaceTable(n: int)
    ensures IsWhiteSpace(n) <==>
            n in {9, 10, 11, 12, 13, 32, 133, 160, 5760, 8192, 8193, 8194, 8195, 8196, 8197, 8198, 8199, 8200, 8201, 8202,
                  8232, 8233, 8239, 8287, 12288}
  {
  }
}
