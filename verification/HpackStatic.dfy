/** The tables the server is built with, and the guarantee of the connection for them. */
module HpackStatic {
  import opened Common
  import opened HuffmanCode
  import opened HuffmanTables
  import opened HuffmanRfc
  import opened HpackTable
  import opened Hpack
  import opened HpackLockstep

  function StaticEntry(name: string, value: string): Field {
    Field(Ascii(name), Ascii(value))
  }

  /** Appendix A of RFC 7541, by index. */
  function StaticAt(index: nat): Field {
    match index
    case 1 => StaticEntry(":authority", "")
    case 2 => StaticEntry(":method", "GET")
    case 3 => StaticEntry(":method", "POST")
    case 4 => StaticEntry(":path", "/")
    case 5 => StaticEntry(":path", "/index.html")
    case 6 => StaticEntry(":scheme", "http")
    case 7 => StaticEntry(":scheme", "https")
    case 8 => StaticEntry(":status", "200")
    case 9 => StaticEntry(":status", "204")
    case 10 => StaticEntry(":status", "206")
    case 11 => StaticEntry(":status", "304")
    case 12 => StaticEntry(":status", "400")
    case 13 => StaticEntry(":status", "404")
    case 14 => StaticEntry(":status", "500")
    case 15 => StaticEntry("accept-charset", "")
    case 16 => StaticEntry("accept-encoding", "gzip, deflate")
    case 17 => StaticEntry("accept-language", "")
    case 18 => StaticEntry("accept-ranges", "")
    case 19 => StaticEntry("accept", "")
    case 20 => StaticEntry("access-control-allow-origin", "")
    case 21 => StaticEntry("age", "")
    case 22 => StaticEntry("allow", "")
    case 23 => StaticEntry("authorization", "")
    case 24 => StaticEntry("cache-control", "")
    case 25 => StaticEntry("content-disposition", "")
    case 26 => StaticEntry("content-encoding", "")
    case 27 => StaticEntry("content-language", "")
    case 28 => StaticEntry("content-length", "")
    case 29 => StaticEntry("content-location", "")
    case 30 => StaticEntry("content-range", "")
    case 31 => StaticEntry("content-type", "")
    case 32 => StaticEntry("cookie", "")
    case 33 => StaticEntry("date", "")
    case 34 => StaticEntry("etag", "")
    case 35 => StaticEntry("expect", "")
    case 36 => StaticEntry("expires", "")
    case 37 => StaticEntry("from", "")
    case 38 => StaticEntry("host", "")
    case 39 => StaticEntry("if-match", "")
    case 40 => StaticEntry("if-modified-since", "")
    case 41 => StaticEntry("if-none-match", "")
    case 42 => StaticEntry("if-range", "")
    case 43 => StaticEntry("if-unmodified-since", "")
    case 44 => StaticEntry("last-modified", "")
    case 45 => StaticEntry("link", "")
    case 46 => StaticEntry("location", "")
    case 47 => StaticEntry("max-forwards", "")
    case 48 => StaticEntry("proxy-authenticate", "")
    case 49 => StaticEntry("proxy-authorization", "")
    case 50 => StaticEntry("range", "")
    case 51 => StaticEntry("referer", "")
    case 52 => StaticEntry("refresh", "")
    case 53 => StaticEntry("retry-after", "")
    case 54 => StaticEntry("server", "")
    case 55 => StaticEntry("set-cookie", "")
    case 56 => StaticEntry("strict-transport-security", "")
    case 57 => StaticEntry("transfer-encoding", "")
    case 58 => StaticEntry("user-agent", "")
    case 59 => StaticEntry("vary", "")
    case 60 => StaticEntry("via", "")
    case 61 => StaticEntry("www-authenticate", "")
    case _ => StaticEntry("", "")
  }

  function Tabulated(n: nat, at: nat -> Field): (s: seq<Field>)
    ensures |s| == n && forall i :: 0 <= i < n ==> s[i] == at(i + 1)
  {
    seq(n, i requires 0 <= i < n => at(i + 1))
  }

  const STATIC_TABLE: seq<Field> := Tabulated(61, StaticAt)

  /** The configuration of the server, for any sizes of the literal buffers. */
  function ServerConfig(maxName: nat, maxValue: nat): Config {
    Config(RFC7541, STATIC_TABLE, maxName, maxValue)
  }

  lemma ServerConfigValid(maxName: nat, maxValue: nat)
    ensures ValidConfig(ServerConfig(maxName, maxValue))
  {
    hide ValidCode;
    Rfc7541Valid();
  }

  /** Lockstep for the actual tables of the source, from a fresh connection. */
  lemma ServerLockstep(maxName: nat, maxValue: nat, accept: (seq<Field>, Field) -> bool, lists: seq<seq<Item>>, i: nat)
    requires i < |lists|
    requires forall j :: 0 <= j < |lists| ==> BlockFits(ServerConfig(maxName, maxValue), accept, [], lists[j])
    ensures ValidConfig(ServerConfig(maxName, maxValue))
    ensures var c, start := ServerConfig(maxName, maxValue), TableState([], TABLE_SIZE);
            Received(c, accept, start, Sent(c, start, lists))[i] ==
            Block(TableAfter(c, start, lists[..i + 1]), FieldsOf(lists[i]), None)
  {
    hide BlockFits;
    hide ValidConfig;
    hide ServerConfig;
    hide Received;
    hide Sent;
    hide TableAfter;
    ServerConfigValid(maxName, maxValue);
    Lockstep(ServerConfig(maxName, maxValue), accept, TableState([], TABLE_SIZE), lists, i);
  }
}
