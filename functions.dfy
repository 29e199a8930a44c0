/**
 * The `Function` record of src/lexer/functions.rs: a declaration with its
 * visibility, return type, typed arguments and raw body lines.
 */
module Functions {

  class Function {
    var isGlobal: bool
    var isPublic: bool
    var returnType: string
    var name: string
    /** (type, name) pairs in declaration order. */
    var arguments: seq<(string, string)>
    /** Unparsed body lines, in source order. */
    var body: seq<string>

    /** `new`: a private function with an empty body. */
    constructor (isGlobal: bool, returnType: string, name: string, arguments: seq<(string, string)>)
      ensures this.isGlobal == isGlobal && this.returnType == returnType
      ensures this.name == name && this.arguments == arguments
      ensures !isPublic && body == []
    {
      this.isGlobal := isGlobal;
      this.isPublic := false;
      this.returnType := returnType;
      this.name := name;
      this.arguments := arguments;
      this.body := [];
    }

    /** `add_line_to_body`: append one line after the existing ones. */
    method AddLineToBody(line: string)
      modifies this`body
      ensures body == old(body) + [line]
      ensures |body| == |old(body)| + 1 && body[..|old(body)|] == old(body)
      ensures unchanged(this`isGlobal, this`isPublic, this`returnType, this`name, this`arguments)
    {
      body := body + [line];
    }
  }

  /**
   * A new function that receives two body lines keeps them in order and
   * keeps the header it was created with.
   */
  method TwoLineFunction(name: string, line1: string, line2: string) returns (f: Function)
    ensures f.name == name && f.returnType == "void" && !f.isGlobal && !f.isPublic
    ensures f.arguments == [] && f.body == [line1, line2]
  {
    f := new Function(false, "void", name, []);
    f.AddLineToBody(line1);
    f.AddLineToBody(line2);
  }
}
