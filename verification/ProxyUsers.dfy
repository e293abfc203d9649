/** What the proxy is told about a user; the secret is a hex string. */
module ProxyUsers {
  datatype UserEntry = UserEntry(userLabel: string, secret: string)
}
