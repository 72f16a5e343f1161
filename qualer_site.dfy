/** The Qualer web address that links an Outlook event back to its service order. */
module QualerSite {
  /** Prefix of a service order's page; the order id is the last path segment. */
  const InfoUrl: string := "https://jgiquality.qualer.com/ServiceOrder/Info/"
}
