/** What the knowledge tiers share: trust, bounds and content-derived identifiers
    (internal/knowledge/registry.go). */
module Knowledge {

  /** Curated is human or CI gated; ingest is populated from analyses. */
  datatype Trust = Ingest | Curated

  const MAX_KEY_LEN := 512
  const MAX_LABEL_LEN := 1024
  const MAX_SOURCE_LEN := 512
  const MAX_ATTRS := 32
  const MAX_ATTR_LEN := 1024
  const DEFAULT_MAX_FACTS := 2_000_000

  /** The hash that derives identifiers: the hex digest of a byte string. */
  type Hash = string -> string

  const NUL: string := "\0"

  function Joined(a: string, b: string): string {
    a + NUL + b
  }
}
