/** Vocabulary shared by the models. */
module Common {
  datatype Option<+T> = None | Some(value: T)

  /** The characters that JavaScript's String.prototype.trim removes. */
  predicate IsSpace(c: char) {
    || 0x9 as char <= c <= 0xD as char || c == ' ' || c == 0xA0 as char || c == 0x1680 as char
    || 0x2000 as char <= c <= 0x200A as char || c == 0x2028 as char || c == 0x2029 as char
    || c == 0x202F as char || c == 0x205F as char || c == 0x3000 as char || c == 0xFEFF as char
  }

  predicate Blank(s: string) {
    forall i :: 0 <= i < |s| ==> IsSpace(s[i])
  }

  /** The characters that Python's str.strip removes. */
  predicate PythonSpace(c: char) {
    || 0x9 as char <= c <= 0xD as char || 0x1C as char <= c <= 0x20 as char || c == 0x85 as char || c == 0xA0 as char
    || c == 0x1680 as char || 0x2000 as char <= c <= 0x200A as char || c == 0x2028 as char || c == 0x2029 as char
    || c == 0x202F as char || c == 0x205F as char || c == 0x3000 as char
  }

  predicate PythonBlank(s: string) {
    forall i :: 0 <= i < |s| ==> PythonSpace(s[i])
  }

  /** The two lists of white space by code point; six characters are on one of them only. */
  lemma SpacesAre(c: char)
    ensures PythonSpace(c) <==>
            var n := c as int;
            || n in {9, 10, 11, 12, 13, 28, 29, 30, 31, 32, 0x85, 0xA0, 0x1680}
            || n in {0x2000, 0x2001, 0x2002, 0x2003, 0x2004, 0x2005, 0x2006, 0x2007, 0x2008, 0x2009, 0x200A}
            || n in {0x2028, 0x2029, 0x202F, 0x205F, 0x3000}
    ensures IsSpace(c) != PythonSpace(c) <==> c as int in {28, 29, 30, 31, 0x85, 0xFEFF}
  {
  }
}
