/** The uploaded file and the extension test the upload use case and its
    request validator share: `originalname.split('.').pop().toLowerCase()`
    must be "txt". */
module Files {
  import opened Text

  /** What the upload middleware hands over: the client's file name, the
      content decoded to text, and the size in bytes. */
  datatype UploadFile = UploadFile(originalName: string, content: string, size: nat)

  const NoFileMessage := "Nenhum arquivo foi enviado"
  const NotTxtMessage := "Apenas arquivos TXT são permitidos"

  /** The lowercased text after the last '.', or the whole name lowercased
      when it has no '.'. */
  function Extension(name: string): string {
    var parts := Split(name, '.');
    ToLower(parts[|parts| - 1])
  }

  predicate IsTxt(name: string) {
    Extension(name) == "txt"
  }

  /** A name passes exactly when it ends in "txt" in any letter case,
      preceded by a '.' — or is those three letters alone, since a name
      without a '.' is its own last piece. */
  lemma IsTxtIff(name: string)
    ensures IsTxt(name) <==>
      |name| >= 3 && ToLower(name[|name| - 3..]) == "txt" && (|name| == 3 || name[|name| - 4] == '.')
  {
    if IsTxt(name) {
      TxtExtensionAtEnd(name);
    }
    if |name| >= 3 && ToLower(name[|name| - 3..]) == "txt" && (|name| == 3 || name[|name| - 4] == '.') {
      TxtEndIsExtension(name);
    }
  }

  lemma TxtExtensionAtEnd(name: string)
    requires IsTxt(name)
    ensures |name| >= 3 && ToLower(name[|name| - 3..]) == "txt" && (|name| == 3 || name[|name| - 4] == '.')
  {
    var parts := Split(name, '.');
    SplitLast(name, '.');
    var p := parts[|parts| - 1];
    assert |p| == 3;
    NoDotInTxt(p);
  }

  lemma TxtEndIsExtension(name: string)
    requires |name| >= 3 && ToLower(name[|name| - 3..]) == "txt" && (|name| == 3 || name[|name| - 4] == '.')
    ensures IsTxt(name)
  {
    var b := name[|name| - 3..];
    NoDotInTxt(b);
    if |name| == 3 {
      assert name == b;
      SplitNoSeparator(b, '.');
    } else {
      var a := name[..|name| - 4];
      assert name == a + ['.'] + b;
      SplitAtSeparator(a, '.', b);
      SplitNoSeparator(b, '.');
    }
  }

  /** A piece that lowercases to "txt" holds no '.'. */
  lemma NoDotInTxt(b: string)
    requires ToLower(b) == "txt"
    ensures |b| == 3 && '.' !in b
  {
    forall i | 0 <= i < 3
      ensures b[i] != '.'
    {
      assert LowerChar(b[i]) == "txt"[i];
    }
  }

  /** Names with a ".txt" extension in any case pass. */
  lemma TxtNamesPass()
    ensures IsTxt("test.file.txt") && IsTxt("test.TXT")
  {
    EndsInTxt("test.file", "txt");
    EndsInTxt("test", "TXT");
    assert "test.file" + "." + "txt" == "test.file.txt";
    assert "test" + "." + "TXT" == "test.TXT";
  }

  lemma EndsInTxt(base: string, ext: string)
    requires ToLower(ext) == "txt"
    ensures IsTxt(base + "." + ext)
  {
    var name := base + "." + ext;
    assert |ext| == 3 && name[|name| - 3..] == ext && name[|name| - 4] == '.';
    IsTxtIff(name);
  }

  /** A name without a '.', with an empty extension or with another
      extension fails. */
  lemma OtherNamesFail()
    ensures !IsTxt("testfile") && !IsTxt("testfile.") && !IsTxt("test.pdf")
  {
    NoExtensionFails();
    EmptyExtensionFails();
    PdfFails();
  }

  lemma NoExtensionFails()
    ensures !IsTxt("testfile")
  {
    SplitNoSeparator("testfile", '.');
  }

  lemma EmptyExtensionFails()
    ensures !IsTxt("testfile.")
  {
    ExtensionAfterDot("testfile", "");
    assert "testfile" + "." + "" == "testfile.";
  }

  lemma PdfFails()
    ensures !IsTxt("test.pdf")
  {
    ExtensionAfterDot("test", "pdf");
    assert "test" + "." + "pdf" == "test.pdf";
    assert ToLower("pdf")[0] == 'p';
  }

  /** The extension of `base.ext`, when `ext` holds no '.', is `ext`
      lowercased. */
  lemma ExtensionAfterDot(base: string, ext: string)
    requires '.' !in ext
    ensures Extension(base + "." + ext) == ToLower(ext)
  {
    assert base + "." + ext == base + ['.'] + ext;
    SplitAtSeparator(base, '.', ext);
    SplitNoSeparator(ext, '.');
  }

  /** A bare "txt", with no '.', passes too. */
  lemma BareTxtPasses()
    ensures IsTxt("txt")
  {
    IsTxtIff("txt");
  }
}
