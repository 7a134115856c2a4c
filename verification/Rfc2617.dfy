/** The request digest of RFC 2617, section 3.2.2, over any hash H. */
module Rfc2617 {
  import opened Wrappers

  type Digester = string -> string

  // What protects the request beside the nonce, when a qop directive is present.
  datatype Protection = Protection(qop: string, nc: string, cnonce: string)

  function Joined(first: string, rest: string): string {
    first + (":" + rest)
  }

  // KD(secret, data) = H(concat(secret, ":", data))
  function KD(h: Digester, secret: string, data: string): string {
    h(Joined(secret, data))
  }

  // Section 3.2.2.2: A1 = unq(username-value) ":" unq(realm-value) ":" passwd
  function A1(username: string, realm: string, passwd: string): string {
    Joined(username, Joined(realm, passwd))
  }

  // Section 3.2.2.3: A2 = Method ":" digest-uri-value
  function A2(method_: string, uri: string): string {
    Joined(method_, uri)
  }

  // Section 3.2.2.1
  function RequestDigest(h: Digester, a1: string, a2: string, nonce: string, protection: Option<Protection>): string {
    match protection
    case None => KD(h, h(a1), Joined(nonce, h(a2)))
    case Some(p) => KD(h, h(a1), Joined(nonce, Joined(p.nc, Joined(p.cnonce, Joined(p.qop, h(a2))))))
  }
}
