/**
 * The records of the dashboard (types.ts) and the bits of JavaScript value
 * semantics the components rely on: which strings and numbers are falsy,
 * `startsWith`, and `trim`.
 */
module Types {
  import opened Lists

  type Id = string

  /** `FileItem.type` */
  datatype FileType = Image | Document

  /** `ContentDraft.status` */
  datatype Status = Draft | Published

  /**
   * A category record as stored in the flat list. `children` is not part of
   * the stored record; the tree view builds it (see Categories.TreeNode).
   */
  datatype Category = Category(id: Id, name: string, parentId: Option<Id>, level: nat)

  /** A JavaScript number as the price input produces it: `parseFloat` may give NaN. */
  datatype Number = Finite(n: int) | NaN

  datatype Product = Product(
    id: Id,
    name: string,
    description: string,
    price: int,
    imageId: Option<Id>,
    categoryId: Id)

  datatype FileItem = FileItem(id: Id, name: string, fileType: FileType, url: string, size: nat, date: string)

  datatype ContentDraft = ContentDraft(id: Id, title: string, body: string, status: Status, author: string, date: string)

  function CategoryId(c: Category): Id { c.id }
  function ProductId(p: Product): Id { p.id }
  function FileId(f: FileItem): Id { f.id }
  function DraftId(d: ContentDraft): Id { d.id }

  /** A possibly absent string (`string | null | undefined`) in a boolean position: only a non-empty string is truthy. */
  predicate Truthy(s: Option<string>) {
    s.Some? && s.value != ""
  }

  /** A possibly absent number in a boolean position: `undefined`, 0 and NaN are falsy. */
  predicate TruthyNumber(x: Option<Number>) {
    x.Some? && x.value.Finite? && x.value.n != 0
  }

  /** `s.startsWith(prefix)` */
  predicate StartsWith(s: string, prefix: string) {
    |prefix| <= |s| && s[..|prefix|] == prefix
  }

  /** The code points ECMAScript's `String.prototype.trim` removes: WhiteSpace and LineTerminator. */
  predicate IsWhiteSpace(c: char) {
    || c == '\t' || c == '\n' || c == '\U{000B}' || c == '\U{000C}' || c == '\r'
    || c == ' ' || c == '\U{00A0}' || c == '\U{1680}'
    || ('\U{2000}' <= c <= '\U{200A}')
    || c == '\U{2028}' || c == '\U{2029}' || c == '\U{202F}' || c == '\U{205F}'
    || c == '\U{3000}' || c == '\U{FEFF}'
  }

  /** Drops leading white space. */
  function TrimStart(s: string): (r: string)
    ensures |r| <= |s| && r == s[|s| - |r|..]
    ensures r != [] ==> !IsWhiteSpace(r[0])
    ensures forall i :: 0 <= i < |s| - |r| ==> IsWhiteSpace(s[i])
  {
    if s != [] && IsWhiteSpace(s[0]) then TrimStart(s[1..]) else s
  }

  /** Drops trailing white space. */
  function TrimEnd(s: string): (r: string)
    ensures |r| <= |s| && r == s[..|r|]
    ensures r != [] ==> !IsWhiteSpace(r[|r| - 1])
    ensures forall i :: |r| <= i < |s| ==> IsWhiteSpace(s[i])
  {
    if s != [] && IsWhiteSpace(s[|s| - 1]) then TrimEnd(s[..|s| - 1]) else s
  }

  /** `s.trim()` */
  function Trim(s: string): string {
    TrimEnd(TrimStart(s))
  }

  /** `s.trim()` is the empty (falsy) string exactly when every character of `s` is white space. */
  lemma TrimEmptyIff(s: string)
    ensures Trim(s) == "" <==> forall i :: 0 <= i < |s| ==> IsWhiteSpace(s[i])
  {
    var t := TrimStart(s);
    if Trim(s) == "" {
      assert t == "";
    } else {
      var r := Trim(s);
      assert r[0] == t[0];
      assert !IsWhiteSpace(s[|s| - |t|]);
    }
  }
}
