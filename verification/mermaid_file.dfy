/** The file-name rule shared by the upload button and the upload route: the
    regular expression `/\.(mmd|mermaid)$/i`, used both as a test and, with
    `replace`, to strip the extension. */
module MermaidFile {
  import opened JsText

  /** The regular expression matches: the name ends in `.mmd` or `.mermaid`,
      letters compared without case. */
  predicate HasMermaidExtension(name: string) {
    EndsWithIgnoreCase(name, ".mmd") || EndsWithIgnoreCase(name, ".mermaid")
  }

  /** `name.replace(/\.(mmd|mermaid)$/i, "")`: the name without one trailing
      extension, or the name itself when it has none. */
  function StripMermaidExtension(name: string): (r: string)
    ensures |r| <= |name| && r == name[..|r|]
    ensures HasMermaidExtension(name) <==> |r| < |name|
    ensures HasMermaidExtension(name) ==>
              EqualsIgnoreCase(name[|r|..], ".mmd") || EqualsIgnoreCase(name[|r|..], ".mermaid")
  {
    if EndsWithIgnoreCase(name, ".mmd") then name[..|name| - 4]
    else if EndsWithIgnoreCase(name, ".mermaid") then name[..|name| - 8]
    else name
  }

  /** A `.mermaid` ending is not also a `.mmd` ending: its fourth-last
      character is `m`, not a dot. */
  lemma MermaidIsNotMmd(s: string)
    requires EndsWithIgnoreCase(s, ".mermaid")
    ensures !EndsWithIgnoreCase(s, ".mmd")
  {
    var n := |s|;
    assert LowerAscii(s[n - 8..][4]) == 'm';
    assert s[n - 4..][0] == s[n - 8..][4];
  }

  /** Uploading `base` followed by one extension, in any letter case, gives the
      name `base`; in particular exactly one extension is removed. */
  lemma StripAppendedExtension(base: string, ext: string)
    requires EqualsIgnoreCase(ext, ".mmd") || EqualsIgnoreCase(ext, ".mermaid")
    ensures StripMermaidExtension(base + ext) == base
  {
    var s := base + ext;
    assert s[|s| - |ext|..] == ext;
    if EqualsIgnoreCase(ext, ".mermaid") {
      MermaidIsNotMmd(s);
    }
    assert s[..|base|] == base;
  }

  /** Example: `foo.mmd` becomes `foo`, as a round trip through upload promises. */
  lemma StripExample()
    ensures StripMermaidExtension("foo.mmd") == "foo"
  {
    assert EqualsIgnoreCase(".mmd", ".mmd");
    assert "foo" + ".mmd" == "foo.mmd";
    StripAppendedExtension("foo", ".mmd");
  }
}
