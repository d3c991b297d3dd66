/**
 * The tables of the HTTP/1.1 parser against the character sets of RFC 9110, RFC 3986 and RFC 5234, and the names and
 * words it knows.
 */
module HttpTables {
  import opened Common
  import opened HttpTypes
  import opened HttpHeaderNames
  import opened HttpHeaderValues
  import opened HttpHeaderLines

  // ---- Characters ---------------------------------------------------------------------------------

  predicate IsLetter(b: byte) {
    65 <= b <= 90 || 97 <= b <= 122
  }

  predicate IsDigit(b: byte) {
    48 <= b <= 57
  }

  /** tchar of section 5.6.2 of RFC 9110. */
  predicate IsTokenChar(b: byte) {
    IsLetter(b) || IsDigit(b) || b in {33, 35, 36, 37, 38, 39, 42, 43, 45, 46, 94, 95, 96, 124, 126}
  }

  /**
   * The characters of field names are those of tokens in lower case, and four more: the space, the double quote, the
   * slash and the closing brace.
   */
  lemma TokenExactly(b: byte)
    ensures Token(b) != 0 <==> IsTokenChar(b) || b in {32, 34, 47, 125}
    ensures Token(b) != 0 ==> Token(b) == if 65 <= b <= 90 then b + 32 else b
  {
  }

  /** unreserved of section 2.3 of RFC 3986. */
  predicate IsUnreserved(b: byte) {
    IsLetter(b) || IsDigit(b) || b in {45, 46, 95, 126}
  }

  /** pchar of section 3.3 of RFC 3986, with the percent sign in place of escapes. */
  predicate IsPathChar(b: byte) {
    IsUnreserved(b) || b in {37, 33, 36, 38, 39, 40, 41, 42, 43, 44, 59, 61, 58, 64}
  }

  /**
   * The characters of a path are a slash and those of RFC 3986, all others of ASCII that print but for the number sign
   * and the question mark, and every byte outside of ASCII.
   */
  lemma PathCharExactly(b: byte)
    ensures IsUrlChar(b) <==>
            b == 47 || IsPathChar(b) || b in {34, 60, 62, 91, 92, 93, 94, 96, 123, 124, 125} || b >= 128
  {
  }

  /** The characters of a host are the unreserved ones but for the tilde. */
  lemma HostCharExactly(b: byte)
    ensures IsHostChar(b) <==> IsUnreserved(b) && b != 126
    ensures IsAlpha(b) <==> IsLetter(b)
    ensures IsNum(b) <==> IsDigit(b)
  {
  }

  /** HEXDIG of RFC 5234 in either case; bytes outside of ASCII count as zeros. */
  lemma UnhexExactly(b: byte, d: nat)
    requires d < 16
    ensures Unhex(b) == d <==>
            (d < 10 && b == 48 + d) || (d >= 10 && (b == 55 + d || b == 87 + d)) || (d == 0 && b >= 128)
    ensures Unhex(b) == -1 || 0 <= Unhex(b) < 16
  {
  }

  // ---- Names --------------------------------------------------------------------------------------

  lemma ConnectionName()
    ensures FieldKind(Ascii("Connection")) == Connection
  {
    var l := Lowered(Ascii("Connection"));
    assert l[9] == 110;
    forall i | 0 <= i < 10 ensures l[i] == HTTP_CONNECTION[i] as int {
      assert i == 0 || i == 1 || i == 2 || i == 3 || i == 4 || i == 5 || i == 6 || i == 7 || i == 8 || i == 9;
    }
    assert Is(Trimmed(l), HTTP_CONNECTION);
  }

  lemma ProxyConnectionName()
    ensures FieldKind(Ascii("Proxy-Connection")) == Connection
  {
    var l := Lowered(Ascii("Proxy-Connection"));
    assert l[15] == 110;
    forall i | 0 <= i < 16 ensures l[i] == HTTP_PROXY_CONNECTION[i] as int {
      assert i == 0 || i == 1 || i == 2 || i == 3 || i == 4 || i == 5 || i == 6 || i == 7 || i == 8 || i == 9 ||
             i == 10 || i == 11 || i == 12 || i == 13 || i == 14 || i == 15;
    }
    assert Is(Trimmed(l), HTTP_PROXY_CONNECTION);
  }

  lemma ContentLengthName()
    ensures FieldKind(Ascii("Content-Length")) == ContentLength
  {
    var l := Lowered(Ascii("Content-Length"));
    assert l[13] == 104;
    forall i | 0 <= i < 14 ensures l[i] == HTTP_CONTENT_LENGTH[i] as int {
      assert i == 0 || i == 1 || i == 2 || i == 3 || i == 4 || i == 5 || i == 6 || i == 7 || i == 8 || i == 9 ||
             i == 10 || i == 11 || i == 12 || i == 13;
    }
    assert Is(Trimmed(l), HTTP_CONTENT_LENGTH);
  }

  lemma TransferLetters(i: nat)
    requires i < 9
    ensures Token(Ascii("Transfer-Encoding")[i]) == HTTP_TRANSFER_ENCODING[i] as int
  {
    assert i == 0 || i == 1 || i == 2 || i == 3 || i == 4 || i == 5 || i == 6 || i == 7 || i == 8;
  }

  lemma EncodingLetters(i: nat)
    requires 9 <= i < 17
    ensures Token(Ascii("Transfer-Encoding")[i]) == HTTP_TRANSFER_ENCODING[i] as int
  {
    assert i == 9 || i == 10 || i == 11 || i == 12 || i == 13 || i == 14 || i == 15 || i == 16;
  }

  lemma TransferEncodingName()
    ensures FieldKind(Ascii("Transfer-Encoding")) == TransferEncoding
  {
    hide Token;
    hide Ascii;
    var l := Lowered(Ascii("Transfer-Encoding"));
    forall i | 0 <= i < 17 ensures l[i] == HTTP_TRANSFER_ENCODING[i] as int {
      if i < 9 { TransferLetters(i); } else { EncodingLetters(i); }
    }
    assert l[16] == 103;
    assert Is(Trimmed(l), HTTP_TRANSFER_ENCODING);
  }

  lemma UpgradeName()
    ensures FieldKind(Ascii("Upgrade")) == Upgrade
  {
    var l := Lowered(Ascii("Upgrade"));
    assert l[6] == 101;
    forall i | 0 <= i < 7 ensures l[i] == HTTP_UPGRADE[i] as int {
      assert i == 0 || i == 1 || i == 2 || i == 3 || i == 4 || i == 5 || i == 6;
    }
    assert Is(Trimmed(l), HTTP_UPGRADE);
  }

  lemma ChunkedWord()
    ensures Says(Ascii("Chunked"), HTTP_CHUNKED)
  {
    var v := Ascii("Chunked");
    assert v[6] == 100 && Trimmed(v) == v;
    forall i | 0 <= i < 7 ensures Smaller(v)[i] == HTTP_CHUNKED[i] as int {
      assert i == 0 || i == 1 || i == 2 || i == 3 || i == 4 || i == 5 || i == 6;
    }
  }

  lemma KeepAliveWord()
    ensures Says(Ascii("Keep-Alive"), HTTP_KEEP_ALIVE)
  {
    var v := Ascii("Keep-Alive");
    assert v[9] == 101 && Trimmed(v) == v;
    forall i | 0 <= i < 10 ensures Smaller(v)[i] == HTTP_KEEP_ALIVE[i] as int {
      assert i == 0 || i == 1 || i == 2 || i == 3 || i == 4 || i == 5 || i == 6 || i == 7 || i == 8 || i == 9;
    }
  }

  lemma CloseWord()
    ensures Says(Ascii("Close"), HTTP_CLOSE)
  {
    var v := Ascii("Close");
    assert v[4] == 101 && Trimmed(v) == v;
    forall i | 0 <= i < 5 ensures Smaller(v)[i] == HTTP_CLOSE[i] as int {
      assert i == 0 || i == 1 || i == 2 || i == 3 || i == 4;
    }
  }

  /** The five names the parser knows, as they are usually sent. */
  lemma NamesKnown()
    ensures FieldKind(Ascii("Connection")) == FieldKind(Ascii("Proxy-Connection")) == Connection
    ensures FieldKind(Ascii("Content-Length")) == ContentLength
    ensures FieldKind(Ascii("Transfer-Encoding")) == TransferEncoding
    ensures FieldKind(Ascii("Upgrade")) == Upgrade
  {
    hide *;
    ConnectionName();
    ProxyConnectionName();
    ContentLengthName();
    TransferEncodingName();
    UpgradeName();
  }

  /** The three words that mean something as a value. */
  lemma WordsKnown(m: Meaning)
    ensures ValueEffect(TransferEncoding, Ascii("Chunked"), m) == m.(flags := m.flags.(chunked := true))
    ensures ValueEffect(Connection, Ascii("Keep-Alive"), m) == m.(flags := m.flags.(keepAlive := true))
    ensures ValueEffect(Connection, Ascii("Close"), m) == m.(flags := m.flags.(close := true))
  {
    hide Says;
    hide Ascii;
    ChunkedWord();
    KeepAliveWord();
    CloseWord();
    OneWord(Ascii("Close"));
  }
}
