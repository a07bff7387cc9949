/** The pieces a dashboard card is made of, in the order they are shown. */
module Components {

  datatype Token =
    | Heading(text: string)                     // html.H4 with class "card-title"
    | Text(text: string)                        // a bare string child
    | Break                                     // html.Br()
    | Link(text: string, href: string)          // html.A(text, href=...)
    | Panel(title: string, body: seq<Token>)    // a collapsed dbc.Accordion with one item
}
