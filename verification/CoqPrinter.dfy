/** The term-level printer of include/CoqPrinter.hpp. */
module CoqPrinters {
  import opened Text
  import opened Formatters
  import opened Docs

  class CoqPrinter {
    const output: Formatter

    constructor (output: Formatter)
      ensures this.output == output
    {
      this.output := output;
    }

    method Ctor(head: string, line: bool)
      modifies output
      ensures output.St() == Opened(old(output.St()), head, line)
      ensures output.depth == old(output.depth) + 2
    {
      if line {
        output.NewLine();
      }
      output.OpenParen();
      output.Put(head);
      output.AddNbsp();
    }

    method EndCtor()
      requires output.depth >= 2
      modifies output
      ensures output.St() == Rparen(old(output.St()))
      ensures output.depth == old(output.depth) - 2
    {
      output.CloseParen();
    }

    method Str(text: string)
      modifies output
      ensures output.St() == Quotation(old(output.St()), text)
      ensures output.depth == old(output.depth)
    {
      output.Put("\"");
      output.Put(text);
      output.Put("\"");
    }

    method Boolean(b: bool)
      modifies output
      ensures output.St() == Written(old(output.St()), if b then "true" else "false")
      ensures output.depth == old(output.depth)
    {
      output.Put(if b then "true" else "false");
    }

    method BeginList()
      modifies output
      ensures output.St() == Lparen(old(output.St()))
      ensures output.depth == old(output.depth) + 2
    {
      output.OpenParen();
    }

    method EndList()
      requires output.depth >= 2
      modifies output
      ensures output.St() == Rparen(Written(old(output.St()), "nil"))
      ensures output.depth == old(output.depth) - 2
    {
      output.Put("nil");
      output.CloseParen();
    }

    method Cons()
      modifies output
      ensures output.St() == Consed(old(output.St()))
      ensures output.depth == old(output.depth)
    {
      output.AddNbsp();
      output.Put("::");
      output.AddNbsp();
    }
  }
}
