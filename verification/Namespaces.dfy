/** The XML namespaces the server speaks and the prefixes its responses declare for them. */
module Namespaces {
  const DAV_NS := "DAV:"
  const CALDAV_NS := "urn:ietf:params:xml:ns:caldav"
  const APPLE_NS := "http://apple.com/ns/ical/"
  const CS_NS := "http://calendarserver.org/ns/"

  /** The declared prefix of a namespace; an unknown namespace falls back to D. */
  function NsPrefix(namespace: string): string {
    if namespace == DAV_NS then "D"
    else if namespace == CALDAV_NS then "C"
    else if namespace == APPLE_NS then "A"
    else if namespace == CS_NS then "CS"
    else "D"
  }

  function PrefixName(namespace: string, localName: string): string {
    NsPrefix(namespace) + ":" + localName
  }
}
