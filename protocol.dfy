/** The OpenID Authentication 2.0 constants the relying party writes and
    expects: the protocol namespace, the identifier that asks the provider
    to select one, the request mode, and the two lines of a confirming
    check_authentication reply. */
module Protocol {
  const OpenIdNs := "http://specs.openid.net/auth/2.0"
  const IdentifierSelect := "http://specs.openid.net/auth/2.0/identifier_select"
  const CheckidSetup := "checkid_setup"
  const IsValidLine := "is_valid:true"
  const NsLine := "ns:http://specs.openid.net/auth/2.0"
}
