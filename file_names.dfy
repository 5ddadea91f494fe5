/**
 * The file names the compiler driver derives from the source file name: the
 * validity test on the `.kts` suffix, the `.asm` output name and the base
 * name handed to the assembler and the linker.
 */
module FileNames {
  import opened Base

  const DOT_KT: seq<byte> := Bytes(".kt")
  const KTS: seq<byte> := Bytes(".kts")
  const ASM: seq<byte> := Bytes("asm")

  /**
   * `is_file_name_valid`: longer than four bytes, and the three bytes that
   * start four from the end compare equal to the first three of `.kts`.
   */
  predicate IsFileNameValid(name: seq<byte>)
    requires NoNul(name)
  {
    |name| > 4 && name[|name| - 4..|name| - 1] == KTS[..3]
  }

  /** Every name ending in `.kts` with a non-empty stem is accepted. */
  lemma KtsNamesValid(stem: seq<byte>)
    requires NoNul(stem + KTS) && |stem| > 0
    ensures IsFileNameValid(stem + KTS)
  {
    var name := stem + KTS;
    assert name[|name| - 4..|name| - 1] == KTS[..3];
  }

  /** Only three bytes are compared: any last byte after `.kt` is accepted. */
  lemma LastByteUnchecked(stem: seq<byte>, last: byte)
    requires NoNul(stem + DOT_KT + [last]) && |stem| > 0
    ensures IsFileNameValid(stem + DOT_KT + [last])
  {
    var name := stem + DOT_KT + [last];
    assert name[|name| - 4..|name| - 1] == DOT_KT;
  }

  /** A name of four bytes or fewer (`.kts` alone included) is rejected. */
  lemma ShortNamesInvalid(name: seq<byte>)
    requires NoNul(name) && |name| <= 4
    ensures !IsFileNameValid(name)
  {
  }

  /** A valid name is a non-empty stem, `.kt` and one more byte. */
  lemma ValidNameShape(name: seq<byte>)
    requires NoNul(name) && IsFileNameValid(name)
    ensures |name| >= 5 && name == name[..|name| - 4] + DOT_KT + [name[|name| - 1]]
  {
    assert name[|name| - 4..|name| - 1] == DOT_KT;
    assert name == name[..|name| - 4] + name[|name| - 4..|name| - 1] + [name[|name| - 1]];
  }

  /**
   * `base_source_file_name`: the last four bytes of the base buffer become
   * NUL; every other byte is left as it was.
   */
  method BaseSourceFileName(name: seq<byte>, base: array<byte>)
    requires NoNul(name) && IsFileNameValid(name) && |name| <= base.Length
    modifies base
    ensures forall j | 0 <= j < base.Length ::
      base[j] == if |name| - 4 <= j < |name| then NUL else old(base[j])
  {
    var len := |name|;
    base[len - 4] := NUL;
    base[len - 3] := NUL;
    base[len - 2] := NUL;
    base[len - 1] := NUL;
  }

  /**
   * The base name as `run` builds it: a cleared buffer of `MAXPATHLEN + 1`
   * bytes, the name copied in, then `base_source_file_name`. The C string
   * left in it is the name without its last four bytes.
   */
  method BaseName(name: seq<byte>) returns (base: array<byte>)
    requires NoNul(name) && IsFileNameValid(name) && |name| <= MAXPATHLEN
    ensures fresh(base) && base.Length == MAXPATHLEN + 1
    ensures CString(base[..]) == name[..|name| - 4]
  {
    base := new byte[MAXPATHLEN + 1](j => if 0 <= j < |name| then name[j] else NUL);
    BaseSourceFileName(name, base);
    assert base[..] == name[..|name| - 4] + Zeros(MAXPATHLEN + 5 - |name|);
    CStringOfPadded(name[..|name| - 4], Zeros(MAXPATHLEN + 5 - |name|));
  }

  /**
   * The `.asm` name of `run`: the name copied into a zeroed buffer of
   * `MAXPATHLEN + 1` bytes, its last three bytes replaced by `asm`.
   */
  method AsmFileName(name: seq<byte>) returns (asm: array<byte>)
    requires NoNul(name) && IsFileNameValid(name) && |name| <= MAXPATHLEN
    ensures fresh(asm) && asm.Length == MAXPATHLEN + 1
    ensures CString(asm[..]) == name[..|name| - 3] + ASM
  {
    asm := new byte[MAXPATHLEN + 1](j => if 0 <= j < |name| then name[j] else NUL);
    var len := |name|;
    asm[len - 3] := ASM[0];
    asm[len - 2] := ASM[1];
    asm[len - 1] := ASM[2];
    var text := name[..len - 3] + ASM;
    assert asm[..] == text + Zeros(MAXPATHLEN + 1 - len);
    CStringOfPadded(text, Zeros(MAXPATHLEN + 1 - len));
  }

  /** The assembly file is the base name followed by `.asm`. */
  lemma AsmNameExtendsBase(name: seq<byte>)
    requires NoNul(name) && IsFileNameValid(name)
    ensures name[..|name| - 3] + ASM == name[..|name| - 4] + Bytes(".asm")
  {
    assert name[|name| - 4] == DOT_KT[0];
    assert name[..|name| - 3] == name[..|name| - 4] + [name[|name| - 4]];
  }

  /** What `run` has decided once it has looked at the file name. */
  datatype RunStart =
    | InvalidSourceFileName
    | Compile(asmName: seq<byte>, baseName: seq<byte>)

  /**
   * The file-name steps of `run`: an invalid name is rejected before any
   * file is opened; otherwise the `.asm` name and the base name are the
   * ones the assembler and linker are given.
   */
  method RunNames(name: seq<byte>) returns (r: RunStart)
    requires NoNul(name) && |name| <= MAXPATHLEN
    ensures r.InvalidSourceFileName? <==> !IsFileNameValid(name)
    ensures r.Compile? ==> r.asmName == r.baseName + Bytes(".asm")
    ensures r.Compile? ==> r.baseName == name[..|name| - 4]
  {
    if !IsFileNameValid(name) {
      return InvalidSourceFileName;
    }
    var asm := AsmFileName(name);
    var base := BaseName(name);
    AsmNameExtendsBase(name);
    r := Compile(CString(asm[..]), CString(base[..]));
  }
}
